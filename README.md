# ibus-buuz: a Dafny model of the transliteration engine and the composition state machine

ibus-buuz is an IBus input method that turns typed Latin letters into Mongolian
Cyrillic. This project models its two sequential components and proves
properties of them.

- **The rule engine** (`Composer`, engine/composer.py) is in `composer.dfy`, module
  `Transliteration`.
  - It builds an ordered table of `(pattern, replacement, flags)` rules. A rule
    flagged `X_AC` is expanded into all upper/lower-case variants of its
    alphabetic positions.
  - It caches the distinct pattern lengths, longest first.
  - `convert` matches left to right: longest length first, then the first rule in
    table order that carries the current vowel-harmony bit. `X_MF` and `X_MM`
    rules switch the harmony; unmatched characters are copied.
  - The class `Composer` keeps the rule list and the length list as fields. Its
    methods (`AddRule`, the recursive `GenerateCaseVariants`, `ComputeRuleLengths`,
    `Convert` with its nested loops) are proved against the functions `Expand`,
    `BuildTable`, `SortedDescending`, `FirstFiring`, `MatchAt`, `StepAt` and `Scan`.
- **Case expansion** is characterised without recursion in `case_variants.dfy`,
  module `CaseVariantLemmas`.
- **Length list, longest match, partition of the input, harmony and pass-through**
  are proved in `conversion.dfy`, module `ConversionLemmas`.
- **How the canonical table uses harmony** is proved in `harmony.dfy`, module
  `TableHarmony`. Looked up in a masculine word, a bare o or u becomes О/У; in a
  feminine word it becomes Ө/Ү, in either case.
- **The composition state machine** (`BuuzEngine`, engine/engine.py) is in
  `engine.dfy`, module `Engine`.
  - A session holds the raw buffer and the composing flag.
  - `ProcessKey` is `do_process_key_event` as a function of the state and one key
    event. It returns the new state, the calls made to the host (commit text,
    update preedit, hide preedit) and whether the key was consumed. `Run` folds it
    over a sequence of events.
  - The class `BuuzEngine` has the fields `preedit_string` and `is_composing`, and
    a ghost log of host calls. Its methods follow the source statement by
    statement and are proved to do what `ProcessKey` describes.
  - The engine's lemmas take the conversion as a parameter (`Converter`). The
    engine object passes its composer's `convert`, and its constructor proves that
    this is `Transliterate`, the conversion over the canonical table.

## Behaviour worth noting

- **Escape** is not special-cased. Like space and enter, it commits the converted buffer and is let through (engine/engine.py:113-116). Only `do_reset` discards the buffer.
- **A 51st letter** commits the buffer, empties it and is let through (engine/engine.py:96, :113-116).
- **A BackSpace that empties the buffer** keeps `is_composing` set. The preedit is then updated to the empty text with visibility false, not hidden (engine/engine.py:120-136).
- **Vowel harmony is not reset between words.** Within one `convert` call, the state set by an `X_MF` or `X_MM` rule carries over spaces and punctuation (engine/composer.py:284, :305-308).

## Model

| member | source | states |
|---|---|---|
| Transliteration.ValidIn | engine/composer.py:300 | no contract of its own: a rule may fire when its flags carry the state's bit; `VowelsByHarmony` shows what this selects in the canonical table |
| Transliteration.NextGender | engine/composer.py:305-308 | no contract of its own: `X_MF` makes the word feminine, otherwise `X_MM` makes it masculine, otherwise the state is kept; `StepAt` and `HarmonyIsLastSetter` state its effect on a conversion |
| Transliteration.BuildTable | engine/composer.py:54-141 | the built table has at least one entry per canonical rule; `Composer.InitRules` builds it, and `BuildTableLengths`, `BuildTableConcat` and `CanonicalPatternChars` characterise it |
| Transliteration.PatternLengths | engine/composer.py:199-201 | no contract of its own: the set of the rules' pattern lengths; `BuildTableLengths`, `ApplicableIsListed` and `CanonicalPatternLengths` characterise it |
| Transliteration.Expand | engine/composer.py:143-192 | every entry `_add_rule` appends for a rule has the rule's flags and a pattern of the same length; a rule without `X_AC` is appended exactly once, verbatim |
| Transliteration.CaseVariants | engine/composer.py:165-186 | the recursion yields at least one entry, each with the rule's flags and a pattern as long as the prefix built so far plus the positions left |
| Transliteration.SortedDescending | engine/composer.py:202 | `sorted(set, reverse=True)`: exactly the elements of the set, in strictly descending order |
| Transliteration.FirstFiring | engine/composer.py:299-300 | a result is a rule whose pattern equals the substring and which carries the harmony bit, with no such rule before it; no result means no rule fires |
| Transliteration.MatchAt | engine/composer.py:291-316 | a match lies inside the text and its rule fires on the matched substring |
| Transliteration.StepAt | engine/composer.py:289-321 | one loop iteration consumes between 1 and the remaining number of characters at the cursor; the harmony becomes what the fired rule's flags set, and is unchanged when a character is copied |
| Transliteration.Scan | engine/composer.py:286-321 | no contract of its own: the iterations of the conversion loop from a cursor and a state; `ScanFacts`, `ScanIsLongestMatch` and `HarmonyIsLastSetter` characterise it |
| Transliteration.ConvertText | engine/composer.py:280-281 | converting the empty text gives the empty text |
| Transliteration.Transliterate | engine/composer.py:270-323 | no contract of its own: `convert` over the canonical table; `TransliteratePassesThrough` characterises it, and `Engine.BuuzEngine.constructor` proves the engine's conversion equal to it |
| Transliteration.CanonicalNonEmpty | engine/composer.py:54-141 | no rule of the canonical list or of the expanded table has an empty pattern, so the cursor always advances |
| Transliteration.Composer.constructor | engine/composer.py:40-49 | after construction the rules are the expanded canonical table, and the length list is its distinct pattern lengths in descending order |
| Transliteration.Composer.InitRules | engine/composer.py:51-141 | the canonical rules are appended in order, each expanded as `_add_rule` does |
| Transliteration.Composer.AddRules | engine/composer.py:54-141 | adding rules one after another appends the concatenation of their expansions |
| Transliteration.Composer.AddRule | engine/composer.py:143-192 | the rule list grows by exactly the rule's expansion and nothing else changes |
| Transliteration.Composer.GenerateCaseVariants | engine/composer.py:165-190 | the in-place recursion appends exactly the entries of `CaseVariants`, in order |
| Transliteration.Composer.ComputeRuleLengths | engine/composer.py:194-202 | the length list becomes the distinct pattern lengths of the rules, each once, longest first; the rules are unchanged |
| Transliteration.Composer.FirstRule | engine/composer.py:299-313 | the inner loop returns the first rule in table order that fires, or none |
| Transliteration.Composer.MatchRule | engine/composer.py:291-316 | the length loop skips lengths past the end and returns the first length, with its rule, at which a rule fires |
| Transliteration.Composer.Convert | engine/composer.py:270-323 | the loop returns exactly the replacements of the iterations of `Scan`, concatenated |
| CaseVariantLemmas.Choices | engine/composer.py:171-183 | there are 2^k case choices for k alphabetic positions, each of length k |
| CaseVariantLemmas.CaseVariantsAreChoices | engine/composer.py:165-186 | the recursion lists one entry per case choice, in the order of `Choices` |
| CaseVariantLemmas.ExpandIsAllCaseChoices | engine/composer.py:153-190 | an `X_AC` rule with k alphabetic positions contributes exactly 2^k entries, the j-th being the variant for the j-th case choice |
| CaseVariantLemmas.ExpandSize | engine/composer.py:153-192 | an expansion has 2^k entries for an `X_AC` rule and 1 otherwise; all keep the flags and the pattern length |
| CaseVariantLemmas.CasedPatternAt | engine/composer.py:171-186 | in a variant's pattern, an alphabetic position is the source character in the case chosen for its rank, and any other position is unchanged |
| CaseVariantLemmas.CasedReplacementAt | engine/composer.py:174-183 | a variant's replacement has the length of the shorter of the replacement and the choice; its j-th character is the replacement's j-th character in the case of the j-th alphabetic position |
| CaseVariantLemmas.ChoicesOrdered | engine/composer.py:173-183 | of any two entries, the earlier one has upper case at the first position where they differ |
| CaseVariantLemmas.SxcVariants | engine/composer.py:110 | the expansion of "SXC" -> "Щ" contains "sxc" -> "щ", "Sxc" -> "Щ" and "sXC" -> "щ" |
| ConversionLemmas.BuildTableLengths | engine/composer.py:143-202 | expansion keeps exactly the set of pattern lengths of the listed rules |
| ConversionLemmas.DescendingUnique | engine/composer.py:202 | two strictly descending lists with the same elements are equal, so the length list is determined by the set of lengths |
| ConversionLemmas.CanonicalPatternLengths | engine/composer.py:54-141 | the canonical patterns have lengths exactly 1, 2 and 3 |
| ConversionLemmas.TableLengthsAreThreeTwoOne | engine/composer.py:194-202 | the engine's length list is [3, 2, 1] |
| ConversionLemmas.MatchAtLongest | engine/composer.py:291-316 | over a descending length list, a match is at the longest listed applicable length, with the first firing rule; no match means no listed length applies |
| ConversionLemmas.ApplicableIsListed | engine/composer.py:194-202 | any length at which some rule fires is in the length list |
| ConversionLemmas.StepIsLongestMatch | engine/composer.py:287-321 | each iteration takes the longest length at which some rule applies and the first such rule in table order; when none applies, it copies one character and keeps the harmony |
| ConversionLemmas.LongestMatchStepUnique | engine/composer.py:291-321 | at most one iteration meets that description, so it determines the step |
| ConversionLemmas.ScanFacts | engine/composer.py:286-321 | the iterations consume the input exactly, as a left-to-right partition into non-empty pieces, each starting in the state the previous one left |
| ConversionLemmas.ScanIsLongestMatch | engine/composer.py:286-321 | the first iteration of the scan is the longest match, and the rest of the scan continues after it |
| ConversionLemmas.HarmonyIsLastSetter | engine/composer.py:284-308 | before each iteration the harmony is the one set by the last fired `X_MF`/`X_MM` rule (`X_MF` first), masculine when none has fired |
| ConversionLemmas.PassThrough | engine/composer.py:318-321 | characters no pattern mentions are copied unchanged |
| ConversionLemmas.CanonicalPatternChars | engine/composer.py:54-141 | the expanded canonical table's patterns consist only of alphabetic characters and the two quote characters |
| ConversionLemmas.TransliteratePassesThrough | engine/composer.py:270-323 | `convert` returns unchanged any text with no alphabetic character and no quote |
| TableHarmony.FirstReplacement | engine/composer.py:299-313 | the rule loop finds a replacement exactly when some rule fires on the substring, and it is the replacement of a rule that fires |
| TableHarmony.BuildTableConcat | engine/composer.py:54-141 | adding two lists of rules one after the other builds the concatenation of their tables |
| TableHarmony.FirstReplacementConcat | engine/composer.py:299-313 | the rule loop over a concatenation answers from the first part when that part has an answer, and from the second part otherwise |
| TableHarmony.ExpandMisses | engine/composer.py:143-192 | no case variant of a rule fires on a substring the rule cannot match in any case, at that length or in that state |
| TableHarmony.LetterVariants | engine/composer.py:165-190 | a one-letter rule with case variants expands to its upper-case form followed by its lower-case form |
| TableHarmony.LetterHit | engine/composer.py:165-190 | that letter, looked up in either case, is answered with the replacement in the same case |
| TableHarmony.MasculineO | engine/composer.py:90 | in a masculine word, o becomes о and O becomes О |
| TableHarmony.FeminineO | engine/composer.py:90-97 | in a feminine word, o becomes ө and O becomes Ө: the masculine-only rule for O is skipped |
| TableHarmony.MasculineU | engine/composer.py:113 | in a masculine word, u becomes у and U becomes У |
| TableHarmony.FeminineU | engine/composer.py:113-120 | in a feminine word, u becomes ү and U becomes Ү: the masculine-only rule for U is skipped |
| TableHarmony.VowelsByHarmony | engine/composer.py:90-121 | the canonical table tells the two o's and the two u's apart by the word's harmony alone, in both cases |
| Transliteration.IsInputChar | engine/composer.py:258-268 | no contract of its own: an apostrophe, a double quote or an ASCII letter; `ShouldProcessKeyCodes` characterises it by code |
| Transliteration.ShouldProcessKey | engine/composer.py:239-256 | no contract of its own: a key value that names a character and whose character is an input character; `ShouldProcessKeyIsInputChar` and `ShouldProcessKeyCodes` characterise it |
| Transliteration.ShouldProcessKeyIsInputChar | engine/composer.py:239-256 | for the code of a character, `should_process_key` is `_is_input_char` |
| Transliteration.ShouldProcessKeyCodes | engine/composer.py:250-268 | a key value passes exactly when it is the code of `'`, `"`, `A`-`Z` or `a`-`z`; in particular no value outside the code points passes |
| Engine.Render | engine/engine.py:118-139 | `update_preedit` hides the preedit exactly when nothing is being composed; otherwise it shows the converted buffer with the cursor at its end, visible exactly when the text is non-empty |
| Engine.CommitCalls | engine/engine.py:141-151 | `commit_preedit` commits the converted buffer exactly once and leaves the preedit hidden while composing, and makes no call otherwise |
| Engine.AfterCommit | engine/engine.py:141-151 | after `commit_preedit` nothing is being composed, and from a well-formed state the engine is idle |
| Engine.ProcessKey | engine/engine.py:65-116 | a consumed key is a press whose only call renders the new state; a key let through either changes nothing and makes no call, or does exactly what `commit_preedit` does |
| Engine.ProcessKeyWellFormed | engine/engine.py:84-110 | every key event keeps the buffer at most 50 input characters long, and non-empty only while composing |
| Engine.ReactionShapes | engine/engine.py:65-151 | a key event emits nothing and changes nothing, or emits the rendering of the new state, or commits the converted buffer, hides the preedit and leaves the engine idle |
| Engine.ProcessKeyKeepsDisplay | engine/engine.py:118-139 | if the host showed the rendering of the old state, it shows that of the new state after the event's calls |
| Engine.IgnoredKeys | engine/engine.py:79-93 | a release event, Shift_L, Shift_R and Caps_Lock return false and change nothing |
| Engine.BackSpaceRemovesLast | engine/engine.py:84-89 | BackSpace on a non-empty buffer removes exactly its last character, re-renders and returns true; on an empty buffer it returns false and changes nothing |
| Engine.AcceptedKeyAppends | engine/engine.py:96-110 | an accepted key is appended to the buffer and starts composing; the converted buffer is shown with the cursor at its end, visible when non-empty, and the key is consumed |
| Engine.OtherKeyCommits | engine/engine.py:113-116 | any other key while composing commits the converted buffer exactly once, hides the preedit, empties the buffer and returns false; while not composing it changes nothing |
| Engine.FullBufferCommits | engine/engine.py:96-116 | a letter arriving when 50 characters are buffered commits the buffer instead of being added |
| Engine.CommitThenHide | engine/engine.py:141-151 | committing emits the text once and leaves the preedit hidden |
| Engine.RunWellFormed | engine/engine.py:65-116 | any sequence of key events keeps the buffer well formed |
| Engine.RunKeepsDisplay | engine/engine.py:118-139 | after any sequence of key events the host shows `convert` of the buffer while composing, and nothing otherwise |
| Engine.TypeWord | engine/engine.py:96-110 | typing a word of input characters that fits the buffer leaves it composing that word, commits nothing, and consumes every key |
| Engine.WordThenOtherKey | engine/engine.py:96-116 | typing a word and then a key the buffer does not take commits the conversion of the word exactly once and lets the key through |
| Engine.TypeBuuzThenSpace | engine/engine.py:65-151 | typing "buuz" and then space commits `convert("buuz")` exactly once and ends idle |
| Engine.BuuzEngine.constructor | engine/engine.py:34-42 | a new engine is idle, has made no calls, and converts with the canonical table |
| Engine.BuuzEngine.UpdatePreedit | engine/engine.py:118-139 | the state is unchanged and exactly one rendering call is made |
| Engine.BuuzEngine.ResetState | engine/engine.py:60-63 | the engine becomes idle and the preedit is hidden |
| Engine.BuuzEngine.CommitPreedit | engine/engine.py:141-151 | while composing, commits the converted buffer, hides the preedit and becomes idle; otherwise makes no call and changes nothing |
| Engine.BuuzEngine.Reset | engine/engine.py:55-58 | discards the buffer without committing and keeps the display invariant |
| Engine.BuuzEngine.FocusOut | engine/engine.py:50-53 | commits the buffer as `commit_preedit` does and keeps the display invariant |
| Engine.BuuzEngine.ProcessKeyEvent | engine/engine.py:65-116 | the new state, the calls made and the result are those of `ProcessKey`; well-formedness and "the host shows the rendering of the state" are preserved |

## Left out

- `dump_rules` (file output with a timestamp, exceptions swallowed), `debug_print` and the `utils` module: output only. `do_focus_in` only logs.
- The IBus objects are replaced by plain values.
  - `IBus.Engine`, `IBus.Text`, the attribute list and its underline are left out.
  - The host calls `commit_text`, `update_preedit_text` and `hide_preedit_text` become values of `HostCall`; the engine records them in a ghost log.
- Key events are abstracted.
  - The `IBus.KEY_*` and `ModifierType` constants become the `Key` and `KeyEvent` datatypes: a release flag, the four special keys, any other key value, and whether a modifier other than Shift is held.
  - A key value carried by `Keysym` stands for any key other than BackSpace, Shift_L, Shift_R and Caps_Lock, which have constructors of their own.
  - Caps Lock's lock state counts as a modifier other than Shift, as `state & ~SHIFT_MASK` makes it.
- Python's Unicode `isalpha`, `upper` and `lower` are defined only on the alphabet the table uses: ASCII letters, Cyrillic А-Я/а-я, Ё/ё, Ө/ө and Ү/ү.
- The straight-line `_add_rule` calls of `_init_rules` are the constant list `CanonicalRules`, added by one loop in the same order.
- The unused `char_pos_map` of `_add_rule` is left out.
- ibus-buuz.py (bus connection, factory, main loop, option parsing) is not part of this model. Nor is setup.py (installation), nor the print/exit harness of test_transliteration.py.
- The concrete vectors of test_transliteration.py ("sh" -> "ш", "dorj" -> "дорж", "delgereh" -> "дэлгэрэх") are not proved as whole conversions over the expanded canonical table. The general lemmas state the behaviour they exercise: longest match, first rule in order, and harmony set by the last `X_MF`/`X_MM` rule. What the table answers for a bare o or u in each harmony state is proved (`VowelsByHarmony`), and so is the case expansion of "SXC" (`SxcVariants`).
- Transliteration.Composer.Convert: requires every pattern to be non-empty. With an empty pattern the source loop would not advance. The table the constructor builds satisfies this (`CanonicalNonEmpty`).
- Engine.BuuzEngine.ProcessKeyEvent: its invariant requires only that the composer's patterns are non-empty, not that the composer holds the canonical table. The constructor establishes the canonical table, and no engine method can change the composer.
