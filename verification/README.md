# Old Norse phonology, verse and verb tools of CLTK, in Dafny

This project models, in Dafny, the Old Norse core of the Classical Language
Toolkit (CLTK) and proves properties of it. The model has five parts:

- **Sound model and two-pass transcriber** (`Sounds`, `Transcription`).
  - Consonants and vowels are feature records whose features come from fixed
    enumerations. An abstract sound is a pattern: an absent feature means
    "don't care".
  - `match` compares a sound with a pattern, and `lengthen` builds a new
    sound.
  - A `Position` is a tag together with the neighbouring sounds. A `Rule`
    rewrites a sound in a given positional context.
  - The first pass segments a word greedily, trying in this order: a
    diphthong spelling, two identical letters (lengthened), then a single
    letter.
  - The second pass rewrites each segment with the first rule that fires,
    and joins the symbols.
  - The source's quirks are kept:
    - `ao` is a one-element tuple, so `ǫ` has no sound attributes.
    - The first segment is given itself as its following neighbour.
    - Vowel lengthening is not idempotent.
- **Verse structures** (`VerseStructure`).
  - Meters are recognised by counting the non-empty lines.
  - Short lines are grouped into long lines: in pairs for Fornyrðislag, and
    2/1/2/1 for Ljóðaháttr.
  - Before syllabification each token has its punctuation stripped and is
    lowercased.
  - The two verse classes are stateful, and their methods overwrite their
    fields.
  - The word tokenizer, the syllabifier and the phrase transcriber are
    function-typed parameters.
- **Verse segmentation of a document** (`ProsodyProcess`).
  - `compute_verses` buckets the words, using two counters, by the offsets
    of the newlines of the raw text.
  - `run` applies a scanner to each verse. The scanner is a parameter.
- **Verb class recognition** (`Verbs`).
  - This covers the stem computation and the weak-verb classifier, with its
    lexical exceptions and error cases.
  - The strong-verb checks and the top-level dispatcher are modelled too.
- **Sonority and segment tables** (`SonorityTables`).
  - These are the syllabifier's constant tables, a sonority-rank lookup, and
    lemmas about how the tables are disjoint and what they cover.

Python exceptions are modelled as `Result.Err` values. Each one names the
exception class the source raises: `IndexError`, `KeyError`, `ValueError`,
`AttributeError`, `TypeError` or `AssertionError`.

## Model

| member | source | states |
|---|---|---|
| Sounds.NewAbstractConsonant | cltk/phonology/old_norse/transcription.py:13-31 | construction succeeds iff each present place and manner is in its enumeration, every absent feature being accepted; otherwise ValueError; the result keeps every given field and is well formed |
| Sounds.NewConsonant | cltk/phonology/old_norse/transcription.py:34-41 | an absent field raises AssertionError before any validation; success iff every field is present and place and manner are in their enumerations, giving a concrete consonant with exactly those fields |
| Sounds.NewAbstractVowel | cltk/phonology/old_norse/transcription.py:76-94 | construction succeeds iff each present height, backness and length is in its enumeration; otherwise ValueError; the result keeps every given field |
| Sounds.NewVowel | cltk/phonology/old_norse/transcription.py:97-104 | an absent field raises AssertionError; success iff every field is present and valid, giving a concrete vowel with exactly those fields |
| Sounds.Match | cltk/phonology/old_norse/transcription.py:43-58 | no pattern matches everything; a pattern of the other kind (vowel against consonant or the reverse) matches nothing |
| Sounds.MatchRejectsConflict | cltk/phonology/old_norse/transcription.py:43-58 | a pattern of the sound's kind that gives any one feature a value other than the sound's does not match it |
| Sounds.MatchIsWildcard | cltk/phonology/old_norse/transcription.py:43-58 | a sound matches every pattern made from it by leaving any of its four features out, whatever the pattern's symbol, and matches no other pattern |
| Sounds.MatchSelf | cltk/phonology/old_norse/transcription.py:43-58 | every concrete sound matches itself used as a pattern |
| Sounds.MatchGeneralize | cltk/phonology/old_norse/transcription.py:43-58 | making a pattern more general never loses a match |
| Sounds.MatchIgnoresSymbols | cltk/phonology/old_norse/transcription.py:43-58 | the symbols of the sound and of the pattern are never compared |
| Sounds.ConcreteMatchSymmetric | cltk/phonology/old_norse/transcription.py:115-130 | between concrete sounds matching is symmetric, and holds iff the two have the same kind and the same features |
| Sounds.Lengthen | cltk/phonology/old_norse/transcription.py:60-67 | the result is concrete and of the same kind; a consonant becomes geminate, keeps its other features and gains ":" unless it already was geminate; a short vowel becomes long and gains ":", any other vowel becomes short and keeps its symbol; nothing else changes |
| Sounds.LengthenConstructs | cltk/phonology/old_norse/transcription.py:60-67 | the constructor that lengthening calls accepts the lengthened features, so lengthening never raises |
| Sounds.ConsonantLengthenSymbol | cltk/phonology/old_norse/transcription.py:60-67 | a consonant gains ":" exactly when it was not already geminate |
| Sounds.ConsonantLengthenIdempotent | cltk/phonology/old_norse/transcription.py:60-67 | lengthening a consonant twice is lengthening it once |
| Sounds.VowelLengthenTwice | cltk/phonology/old_norse/transcription.py:106-113 | a short vowel becomes long with ":" appended, and lengthening it again gives a short vowel whose symbol ends in ":", so vowel lengthening is not idempotent |
| Sounds.VowelLengthenShortens | cltk/phonology/old_norse/transcription.py:110-113 | a long or overlong vowel becomes short with its symbol unchanged |
| Transcription.VowelInventoryConcrete | cltk/phonology/old_norse/transcription.py:142-152 | every vowel of the inventory (including the one `ao` wraps) is a concrete, valid sound |
| Transcription.ConsonantInventoryConcrete | cltk/phonology/old_norse/transcription.py:154-173 | every consonant of the inventory, `gh` with symbol "Ɣ" included, is a concrete, valid sound |
| Transcription.IpaClass | cltk/phonology/old_norse/transcription.py:271-307 | every table entry is (or wraps) a concrete sound, and the entry is a one-element tuple exactly for `ǫ` |
| Transcription.DiphthongClass | cltk/phonology/old_norse/transcription.py:228-233 | each diphthong spelling is two different letters that both have entries, and maps to a concrete vowel |
| Transcription.UppercaseAbsent | cltk/phonology/old_norse/transcription.py:271-307 | no upper-case ASCII letter has an entry |
| Transcription.PositionMatches | cltk/phonology/old_norse/transcription.py:189-204 | a position matches a pattern iff the tags are equal and each neighbour that actually exists matches the pattern's neighbour there |
| Transcription.FirstMatch | cltk/phonology/old_norse/transcription.py:392-400 | the chosen rule fires, no earlier rule fires, and no rule is chosen only when none fires |
| Transcription.FirstMatchSkipsSilentPrefix | cltk/phonology/old_norse/transcription.py:393-398 | rules before the list that cannot fire leave the choice unchanged, shifted by their number |
| Transcription.FirstMatchIgnoresSuffix | cltk/phonology/old_norse/transcription.py:393-398 | once a rule of a list fires, rules appended after the list are never consulted (first match wins) |
| Transcription.FirstMatchSilentSuffix | cltk/phonology/old_norse/transcription.py:393-398 | rules appended after a list that cannot fire leave the choice unchanged |
| Transcription.Lookup | cltk/phonology/old_norse/transcription.py:366-373 | a letter lookup succeeds iff the letter has an entry, and otherwise raises KeyError |
| Transcription.LengthenEntry | cltk/phonology/old_norse/transcription.py:366 | lengthening an entry succeeds iff it is a sound (the one-element tuple raises AttributeError), and gives a concrete sound |
| Transcription.FirstPass | cltk/phonology/old_norse/transcription.py:357-373 | every segment of a successful pass is (or wraps) a concrete sound, the pass is empty only on the empty word, and it fails only with KeyError or AttributeError |
| Transcription.FirstProcessSpec | cltk/phonology/old_norse/transcription.py:349-374 | IndexError exactly for the empty word; a success holds at least one segment, each (or wrapping) a concrete sound; the only exceptions are IndexError, KeyError and AttributeError |
| Transcription.FirstProcess | cltk/phonology/old_norse/transcription.py:349-374 | the loop with its skip flag computes exactly the greedy segmentation `FirstProcessSpec`, failing with the same exception |
| Transcription.Chunks | cltk/phonology/old_norse/transcription.py:357-373 | every piece the scan consumes is one letter, a diphthong spelling, or two identical letters |
| Transcription.ChunksCover | cltk/phonology/old_norse/transcription.py:357-373 | the consumed pieces concatenate to the word, so every letter is consumed exactly once and in order, and there are between ⌈n/2⌉ and n of them |
| Transcription.ChunkSegment | cltk/phonology/old_norse/transcription.py:362-369 | the segment of one piece is (or wraps) a concrete sound |
| Transcription.SegmentAllPointwise | cltk/phonology/old_norse/transcription.py:357-373 | segmenting piece by piece succeeds iff every piece's segment does, and then gives one segment per piece in order |
| Transcription.FirstPassIsSegmentAll | cltk/phonology/old_norse/transcription.py:357-373 | the greedy pass equals the piece-by-piece segmentation of the word's pieces |
| Transcription.FirstPassPerChunk | cltk/phonology/old_norse/transcription.py:357-373 | the first pass succeeds iff every piece's segment does, and yields exactly one segment per piece, in order |
| Transcription.FirstProcessLength | cltk/phonology/old_norse/transcription.py:357-373 | a successful first process on n letters gives between ⌈n/2⌉ and n segments, and at least one |
| Transcription.FirstPassDiphthongFirst | cltk/phonology/old_norse/transcription.py:362-364 | a diphthong spelling at the start yields one diphthong vowel, tested before the identical-pair case |
| Transcription.FirstPassGeminate | cltk/phonology/old_norse/transcription.py:365-367 | two identical letters that are not a diphthong yield one segment, the lengthened entry of the letter |
| Transcription.ChunkLettersKnown | cltk/phonology/old_norse/transcription.py:362-369 | every letter of a piece whose segment succeeds has a table entry |
| Transcription.FirstPassNeedsKnownLetters | cltk/phonology/old_norse/transcription.py:366-373 | a word the first pass accepts consists only of letters with table entries |
| Transcription.FirstProcessFailures | cltk/phonology/old_norse/transcription.py:366-373 | the empty word raises IndexError, and any letter without an entry (upper case included) makes the first process fail |
| Transcription.FirstPassSucceeds | cltk/phonology/old_norse/transcription.py:357-373 | conversely, a word of letters with entries in which `ǫ` is never doubled is segmented without failure |
| Transcription.PositionAt | cltk/phonology/old_norse/transcription.py:386-391 | the position of each segment has concrete neighbours; the first segment is given itself as its following neighbour |
| Transcription.Join | cltk/phonology/old_norse/transcription.py:404 | joining succeeds iff every emitted item is a string, and otherwise raises TypeError |
| Transcription.JoinAllPresent | cltk/phonology/old_norse/transcription.py:404 | joining strings is their plain concatenation, with no brackets |
| Transcription.Emitted | cltk/phonology/old_norse/transcription.py:392-400 | a segment no rule fires on emits its own symbol, and any other output is the replacement symbol of a rule that fires at that position |
| Transcription.EmitSegment | cltk/phonology/old_norse/transcription.py:392-400 | the rule loop, with its `found` flag and `break`, emits the replacement's symbol of the first rule that fires, else the segment's own symbol |
| Transcription.SecondPass | cltk/phonology/old_norse/transcription.py:384-404 | one segment gives its own symbol; with two or more the join succeeds iff every segment emits a symbol, and otherwise raises TypeError |
| Transcription.SecondProcessSpec | cltk/phonology/old_norse/transcription.py:376-404 | IndexError exactly for empty input, AttributeError exactly when a one-element tuple is present, and otherwise only TypeError; a single segment gives its own symbol |
| Transcription.SecondProcess | cltk/phonology/old_norse/transcription.py:376-404 | the nested loops compute `SecondProcessSpec`: IndexError on empty input, AttributeError when a one-element tuple is present, else the join of the emitted symbols |
| Transcription.SecondPassOutput | cltk/phonology/old_norse/transcription.py:384-404 | when every replacement has a symbol, the output is the concatenation of the symbols the segments emit, in order |
| Transcription.SecondPassNoRules | cltk/phonology/old_norse/transcription.py:399-404 | with an empty rule list the output is the concatenation of the first-pass symbols |
| Transcription.SecondPassSingle | cltk/phonology/old_norse/transcription.py:401-402 | a one-segment input returns that segment's symbol whatever the rules |
| Transcription.EmittedIgnoresOtherTriggers | cltk/phonology/old_norse/transcription.py:393-394 | rules whose trigger has another symbol, before or after the list, do not change what a segment emits |
| Transcription.RuleFInitial | cltk/phonology/old_norse/transcription.py:332 | under `rule_f` a word-initial f stays f |
| Transcription.RuleFBetweenVowels | cltk/phonology/old_norse/transcription.py:332-336 | under `rule_f` an f between two vowels becomes v |
| Transcription.RuleFBesideVoiceless | cltk/phonology/old_norse/transcription.py:333-334 | under `rule_f` an inner f next to a voiceless consonant stays f |
| Transcription.RuleFFinal | cltk/phonology/old_norse/transcription.py:332-336 | under `rule_f` a word-final f becomes v |
| Transcription.RuleThVoicing | cltk/phonology/old_norse/transcription.py:325-329 | under `rule_th` a θ between vowels and a word-final θ become ð |
| Transcription.RuleThInitial | cltk/phonology/old_norse/transcription.py:325 | under `rule_th` a word-initial θ stays θ |
| Transcription.RuleGAfterN | cltk/phonology/old_norse/transcription.py:337-338 | under `rule_g` an inner g after n stays g |
| Transcription.RuleGAfterVowel | cltk/phonology/old_norse/transcription.py:337-340 | under `rule_g` an inner g after a vowel becomes k before a voiceless consonant and Ɣ before a vowel |
| Transcription.RuleGFinal | cltk/phonology/old_norse/transcription.py:337-341 | under `rule_g` a word-final g becomes Ɣ |
| Transcription.CombinedAgreesWithOwnList | cltk/phonology/old_norse/transcription.py:419-422 | in the list `rule_f + rule_g + rule_th`, f, g and θ are each treated by their own list, and any other segment is emitted as it is |
| VerseStructure.Lines | cltk/prosody/old_norse/verse.py:32 | splitting on newlines gives at least one piece, and no piece holds a newline |
| VerseStructure.JoinLinesOfLines | cltk/prosody/old_norse/verse.py:32 | joining the pieces with newlines gives the text back |
| VerseStructure.LinesOfJoinLines | cltk/prosody/old_norse/verse.py:32 | splitting the newline-join of newline-free lines gives the lines back |
| VerseStructure.FlattenLines | cltk/prosody/old_norse/verse.py:32 | the pieces hold exactly the text's characters other than newlines, in order |
| VerseStructure.NonEmpty | cltk/prosody/old_norse/verse.py:32 | the kept lines are non-empty members of the input and no more numerous |
| VerseStructure.FlattenNonEmpty | cltk/prosody/old_norse/verse.py:32 | dropping empty lines does not change the concatenation |
| VerseStructure.NonEmptyOfNonEmpty | cltk/prosody/old_norse/verse.py:32 | nothing is dropped from lines that are all non-empty |
| VerseStructure.NonEmptyLines | cltk/prosody/old_norse/verse.py:32 | the kept lines are no more numerous than the pieces of the split, and each is non-empty and newline-free |
| VerseStructure.ShortLinesCoverText | cltk/prosody/old_norse/verse.py:135 | the short lines are non-empty and newline-free, and together hold exactly the text's characters other than newlines, in original order |
| VerseStructure.IsFornyrdhislag | cltk/prosody/old_norse/verse.py:19-33 | a text recognised as Fornyrðislag splits into at least eight lines; `MeterOfStanza` states exactly when it is recognised |
| VerseStructure.IsLjoodhhaattr | cltk/prosody/old_norse/verse.py:50-51 | a text recognised as Ljóðaháttr is never also recognised as Fornyrðislag |
| VerseStructure.MeterOfStanza | cltk/prosody/old_norse/verse.py:19-51 | a stanza of newline-free lines is Fornyrðislag iff exactly eight of them are non-empty, and Ljóðaháttr iff exactly six are |
| VerseStructure.ExampleHavamal77 | cltk/prosody/old_norse/verse.py:41-45 | the Hávamál 77 stanza of the doctest is recognised as Ljóðaháttr |
| VerseStructure.PairUp | cltk/prosody/old_norse/verse.py:136 | there are ⌊n/2⌋ long lines and long line i is short lines 2i and 2i+1 |
| VerseStructure.FlattenPairUp | cltk/prosody/old_norse/verse.py:136 | the long lines hold the short lines in order, except an odd last one, which is dropped |
| VerseStructure.LjoodhhaattrGroups | cltk/prosody/old_norse/verse.py:192 | grouping fails with IndexError iff there are fewer than six short lines, and otherwise gives groups of sizes 2, 1, 2, 1 |
| VerseStructure.FlattenLjoodhhaattrGroups | cltk/prosody/old_norse/verse.py:192 | the groups hold the first six short lines in order, and later lines are ignored |
| VerseStructure.StripPunctuation | cltk/prosody/old_norse/verse.py:80-86 | the stripped token is no longer and holds none of `, . ; ! ? - :` |
| VerseStructure.StripPunctuationKeepsClean | cltk/prosody/old_norse/verse.py:80-86 | a token without those characters is kept whole |
| VerseStructure.StripPunctuationAppend | cltk/prosody/old_norse/verse.py:80-86 | stripping distributes over concatenation, so it removes exactly those characters and keeps the rest in order |
| VerseStructure.LowerChar | cltk/prosody/old_norse/verse.py:88 | lowercasing neither creates nor removes a stripped punctuation character |
| VerseStructure.LowerCharIdempotent | cltk/prosody/old_norse/verse.py:88 | lowercasing twice is lowercasing once |
| VerseStructure.Lower | cltk/prosody/old_norse/verse.py:88 | lowercasing a word keeps its length and lowercases each character |
| VerseStructure.CleanTokens | cltk/prosody/old_norse/verse.py:79-88 | the cleaned tokens are no more numerous, none is empty, and none holds a stripped punctuation character |
| VerseStructure.NonEmptyAppend | cltk/prosody/old_norse/verse.py:87-88 | dropping empty strings distributes over concatenation |
| VerseStructure.CleanTokensPerToken | cltk/prosody/old_norse/verse.py:79-88 | the cleaned tokens are exactly the tokens, each stripped of punctuation and lowercased on its own, with those left empty dropped, in order: no two tokens are merged |
| VerseStructure.FlattenCleanTokens | cltk/prosody/old_norse/verse.py:79-88 | the cleaned tokens together hold the tokens' characters, punctuation removed and lowercased, in order: clean-up loses no letter |
| VerseStructure.WordsOf | cltk/prosody/old_norse/verse.py:78-89 | a short line gives one syllabified word per cleaned token, in order |
| VerseStructure.Syllabified | cltk/prosody/old_norse/verse.py:73-90 | there is one list per long line and one entry per short line, each a one-element list wrapping the line's syllabified words |
| VerseStructure.SyllabifyLines | cltk/prosody/old_norse/verse.py:72-90 | the three nested loops with `append` compute exactly `Syllabified` |
| VerseStructure.Transcribed | cltk/prosody/old_norse/verse.py:101-107 | there is one list per long line and one transcription per short line |
| VerseStructure.TranscribeLines | cltk/prosody/old_norse/verse.py:102-107 | the two nested loops compute exactly `Transcribed` |
| VerseStructure.Fornyrdhislag.constructor | cltk/prosody/old_norse/verse.py:114-118 | a new stanza has an empty text and empty line lists |
| VerseStructure.Fornyrdhislag.FromShortLinesText | cltk/prosody/old_norse/verse.py:134-136 | stores the text verbatim, the non-empty lines in order, and those lines in pairs; the other fields are unchanged |
| VerseStructure.Fornyrdhislag.Syllabify | cltk/prosody/old_norse/verse.py:64-90 | with no long lines the syllabified text becomes empty, otherwise it is rebuilt from the long lines; nothing else changes |
| VerseStructure.Fornyrdhislag.ToPhonetics | cltk/prosody/old_norse/verse.py:92-107 | with no long lines the syllabified text (not the transcribed one) is reset and the transcribed text is unchanged; otherwise the transcribed text is rebuilt |
| VerseStructure.Ljoodhhaatr.constructor | cltk/prosody/old_norse/verse.py:169-174 | a new stanza has an empty text and empty line lists |
| VerseStructure.Ljoodhhaatr.FromShortLinesText | cltk/prosody/old_norse/verse.py:190-192 | stores the text and its non-empty lines; with fewer than six lines IndexError is raised and the long lines keep their old value, otherwise they are the 2/1/2/1 groups |
| VerseStructure.Ljoodhhaatr.Syllabify | cltk/prosody/old_norse/verse.py:194-207 | as for Fornyrðislag: emptied with no long lines, else rebuilt; nothing else changes |
| VerseStructure.Ljoodhhaatr.ToPhonetics | cltk/prosody/old_norse/verse.py:209-214 | as for Fornyrðislag: with no long lines only the syllabified text is reset |
| ProsodyProcess.NewlinesFrom | src/cltk/prosody/processes.py:30 | the scan from an offset finds every newline at or after it, and only newlines, in increasing order |
| ProsodyProcess.NewlinePositions | src/cltk/prosody/processes.py:26-30 | the verse indices are exactly the offsets of the newlines of the raw text, in increasing order |
| ProsodyProcess.RunEnd | src/cltk/prosody/processes.py:36-41 | the run of words from a start that begin before the bound ends at the last word or at the first word that does not |
| ProsodyProcess.VersesFrom | src/cltk/prosody/processes.py:33-43 | the verses built from a word on number exactly the remaining newlines |
| ProsodyProcess.Verses | src/cltk/prosody/processes.py:29-44 | there is exactly one verse per newline, so a text without newline has none |
| ProsodyProcess.VersesFromPrefix | src/cltk/prosody/processes.py:36-40 | the verses from a word on hold the following words in order, each once |
| ProsodyProcess.VersesFromBefore | src/cltk/prosody/processes.py:37-38 | every word of verse h starts before newline h |
| ProsodyProcess.VersesFromTake | src/cltk/prosody/processes.py:34-43 | the first n verses are those computed for the first n newlines |
| ProsodyProcess.VersesFromBoundary | src/cltk/prosody/processes.py:37-41 | the word right after verse h, if any, does not start before newline h |
| ProsodyProcess.VersesProperties | src/cltk/prosody/processes.py:29-44 | one verse per newline; the verses hold a prefix of the words in order, each once; every word of verse h starts before newline h; the next word after verse h does not |
| ProsodyProcess.VersesBeforeLastNewline | src/cltk/prosody/processes.py:37-38 | with increasing newline offsets, every word placed in a verse starts before the last newline, so words after it belong to no verse |
| ProsodyProcess.VersesBetweenNewlines | src/cltk/prosody/processes.py:36-41 | with words in text order, every word of verse h starts at or after newline h-1 |
| ProsodyProcess.CollectVerse | src/cltk/prosody/processes.py:36-41 | the inner loop takes the maximal run of words from the current one that start before the bound, and stops at the first that does not |
| ProsodyProcess.ComputeVerses | src/cltk/prosody/processes.py:29-44 | the two-counter loop computes exactly `Verses` of the words and the newline offsets |
| ProsodyProcess.Run | src/cltk/prosody/processes.py:46-56 | the output keeps the raw text and the words, holds the computed verses, and exactly one scanner result per verse, in verse order |
| Verbs.ComputeStem | cltk/inflection/old_norse/verbs.py:42-45 | fails with IndexError iff the pattern or its infinitive is empty; the stem is a prefix of the infinitive, one letter shorter exactly when it ends in "a" |
| Verbs.ComputeStemRestores | cltk/inflection/old_norse/verbs.py:42-45 | putting back the removed "a", if any, gives the infinitive: exactly one trailing "a" is removed |
| Verbs.LexicalException | cltk/inflection/old_norse/verbs.py:70-75 | a class is fixed by the infinitive alone exactly for segja, þegja, vilja, spá and gera |
| Verbs.RecognizeWeakVerbClass | cltk/inflection/old_norse/verbs.py:48-99 | the empty pattern raises IndexError and an empty infinitive ValueError; for a non-exception a missing past indicative or participle raises IndexError, an empty one ValueError, and a one-letter infinitive without "aða" AttributeError; a class is returned only for a lexical exception, or as the first class for a past indicative ending in "aða" |
| Verbs.WeakExceptionsFirst | cltk/inflection/old_norse/verbs.py:70-75 | segja/þegja give the fourth class, vilja the third, spá/gera the second, before the other forms are looked at |
| Verbs.WeakErrors | cltk/inflection/old_norse/verbs.py:64-99 | recognition fails iff the pattern or infinitive is empty, or (for a non-exception) a form is missing or empty, or a one-letter infinitive reaches the stem's `length`; IndexError exactly for a missing subscript, ValueError exactly for an empty form, AttributeError exactly for the one-letter case, and no other exception |
| Verbs.WeakSecondThirdOnlyExceptions | cltk/inflection/old_norse/verbs.py:94-99 | the second and third classes are returned only for lexical exceptions, because the stem branch always fails |
| Verbs.WeakFirstIff | cltk/inflection/old_norse/verbs.py:89-93 | for a well-formed non-exception with an infinitive of two or more letters, the class is the first iff the past indicative ends in "aða", and none otherwise |
| Verbs.RecognizeStrongVerbPattern | cltk/inflection/old_norse/verbs.py:117-139 | succeeds iff elements 1 and 2 are present and non-empty, raising IndexError exactly for a missing one and ValueError exactly for an empty one, and never returns a class |
| Verbs.RecognizeVerbClassAsWritten | cltk/inflection/old_norse/verbs.py:153-158 | ValueError unless the pattern has 3 or 5 elements; it fails exactly when the weak or strong check fails, and never returns a class |
| Verbs.RecognizeVerbClass | cltk/inflection/old_norse/verbs.py:153-158 | the same dispatch, returning the weak class the check computes |
| Verbs.RecognizeVerbClassAgrees | cltk/inflection/old_norse/verbs.py:153-158 | the written and the corrected dispatcher fail on the same patterns with the same exception |
| Verbs.RecognizeVerbClassDropsClass | cltk/inflection/old_norse/verbs.py:153-154 | ("segja", "sagði", "sagt") is classified weak class 4 by the check, the written dispatcher returns nothing, the corrected one the class |
| SonorityTables.Rank | cltk/corpus/old_norse/syllabifier.py:9-18 | a letter's rank is the index of a tier holding it, and there is none iff no tier holds it |
| SonorityTables.RankOfTier | cltk/corpus/old_norse/syllabifier.py:9-18 | in a hierarchy with disjoint tiers a letter's rank is its tier |
| SonorityTables.VowelTier | cltk/corpus/old_norse/syllabifier.py:10-20 | the most sonorous tier holds exactly the letters of `VOWELS` |
| SonorityTables.ConsonantTiers | cltk/corpus/old_norse/syllabifier.py:11-43 | tiers 1 to 7 hold exactly `CONSONANTS` and "c", and "c" is not in `CONSONANTS` |
| SonorityTables.VowelsAreNotConsonants | cltk/corpus/old_norse/syllabifier.py:20-43 | no vowel is a consonant or "c" |
| SonorityTables.ConsonantTiersDisjoint | cltk/corpus/old_norse/syllabifier.py:11-17 | tiers 1 to 7 are pairwise disjoint |
| SonorityTables.HierarchyDisjoint | cltk/corpus/old_norse/syllabifier.py:9-18 | all tiers are pairwise disjoint, so each letter has at most one sonority rank |
| SonorityTables.SonorityRanks | cltk/corpus/old_norse/syllabifier.py:9-43 | a letter is a vowel iff its rank is 0; every consonant has a rank from 1 to 7; a letter has no rank iff it is neither vowel, consonant nor "c" |
| SonorityTables.VowelLengthClasses | cltk/corpus/old_norse/syllabifier.py:20-22 | the long and short vowels are disjoint and together are exactly the vowels |
| SonorityTables.OnsetsAreConsonantPairs | cltk/corpus/old_norse/syllabifier.py:24-45 | every forbidden onset is two letters of `CONSONANTS` |
| SonorityTables.DiphthongsAreVowelPairs | cltk/corpus/old_norse/syllabifier.py:20-23 | every diphthong is two letters of `VOWELS` |
| SonorityTables.IpaVowelTierApart | cltk/corpus/old_norse/syllabifier.py:48-50 | no IPA vowel lies in another IPA tier |
| SonorityTables.IpaConsonantTiersDisjoint | cltk/corpus/old_norse/syllabifier.py:50 | the IPA tiers after the first are pairwise disjoint |
| SonorityTables.IpaHierarchyDisjoint | cltk/corpus/old_norse/syllabifier.py:48-50 | the IPA tiers are pairwise disjoint and the first is `ipa_vowels` |
| SonorityTables.IpaVowelRank | cltk/corpus/old_norse/syllabifier.py:48-50 | the IPA vowels are exactly the symbols of IPA sonority rank 0 |

## Left out

- Sounds.NewAbstractConsonant: the TypeError for a non-bool `voiced` or `geminate` is not modelled, because Dafny's `Option<bool>` admits no other value.
- Sounds.NewAbstractVowel: the TypeError for a non-bool `rounded` is not modelled, for the same reason.
- The `isinstance` assertions of `Rule` and of `real_sound_match_abstract_sound` are not modelled. The types guarantee them.
- One `Sound` datatype covers the abstract and the concrete classes. `Concrete` tells the two apart. Object identity plays no part in the source.
- Transcription.SecondProcess: a one-element tuple is reported as AttributeError before the scan. The source raises it at the first segment that reads the tuple's attributes. The exception is the same, and no other exception can come earlier.
- The unused tables are not modelled: the `DIPHTONGS_IPA` symbol strings (only its keys are used), `IPA`, `GEMINATE_CONSONANTS`, `OLD_NORSE8_PHONOLOGY` and `POSITIONS`. Nor are the empty `i_umlaut`/`u_umlaut` stubs.
- The `__main__` demo of transcription.py (its I/O and printing) is not modelled. Only the combined rule list it builds is kept, as `Transcription.Combined`.
- VerseStructure.LowerChar: lowercases only Basic Latin, Latin-1 and the capitals Ǫ and Œ. Full Unicode case mapping is not modelled.
- The word tokenizer, the syllabifier and the phrase transcriber are not part of this model. They are uninterpreted function parameters. The source's `to_phonetics` calls a transcriber API absent from the transcription module shown, so its non-empty branch only records one transcription per short line.
- Logging calls in `syllabify` and `to_phonetics` are not modelled.
- ProsodyProcess.CollectVerse: the loop bound is the number of tokens, but the words are read. The model derives the tokens from the words, so the two lengths are equal by construction.
- The regular-expression search for the verse separator is modelled as the list of newline offsets.
- `deepcopy` in `run` is value semantics on the `Doc` datatype.
- The alliteration scanner is not part of this model. It is a parameter of `Run`.
- SonorityTables: tables of one-letter strings are modelled as sets of characters. Their order and the absence of duplicates are not recorded. No algorithm reads them in order.
- The syllabification algorithm that consumes the tables is not part of this model.
- `StrongVerbClass` is declared but never produced, as in the source. The strong-verb check returns no class.
- The unit-test file, the pipeline wrappers in src/cltk/phonology/transcription_processes.py, and the Latin and Middle High German wrappers are not modelled. They delegate to code not shown or to file I/O.

## Findings

| source | as written | input that shows it | evidently intended | confidence | as-written member | corrected member |
|---|---|---|---|---|---|---|
| cltk/inflection/old_norse/verbs.py:153-158 | `recognize_verb_class` calls the weak or strong check and discards its result, so it returns None for every pattern it accepts | ("segja", "sagði", "sagt"): the weak check gives the fourth class, the dispatcher returns None | return the class the check computes | not executed | Verbs.RecognizeVerbClassAsWritten | Verbs.RecognizeVerbClass |
