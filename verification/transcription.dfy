/** The Old Norse rule-based phonetic transcriber: the sound inventory, the
    orthography-to-sound tables, positional contexts and allophone rules, and
    the two passes (greedy segmentation, then first-match-wins rewriting). */
module Transcription {
  import opened Wrappers
  import opened Sounds
  import opened SeqUtil

  // ---------------------------------------------------------------------------
  // Inventory

  function ConcreteVowel(height: string, backness: string, rounded: bool, length: string, ipar: string): Sound
  {
    Vowel(Some(height), Some(backness), Some(rounded), Some(length), Some(ipar))
  }

  function ConcreteConsonant(place: string, manner: string, voiced: bool, ipar: string, geminate: bool): Sound
  {
    Consonant(Some(place), Some(manner), Some(voiced), Some(ipar), Some(geminate))
  }

  const A: Sound := ConcreteVowel("open", "front", false, "short", "a")
  const Ee: Sound := ConcreteVowel("open-mid", "front", false, "short", "ɛ")
  const E: Sound := ConcreteVowel("close-mid", "front", false, "short", "e")
  const Oee: Sound := ConcreteVowel("close-mid", "front", true, "short", "ø")
  const Oe: Sound := ConcreteVowel("open-mid", "front", true, "short", "œ")
  const I: Sound := ConcreteVowel("close", "front", false, "short", "i")
  const Y: Sound := ConcreteVowel("close", "front", true, "short", "y")
  /** The vowel that `ao` wraps: in the source `ao` is a one-element tuple
      holding it, not the vowel itself. */
  const AoVowel: Sound := ConcreteVowel("open", "back", true, "short", "ɒ")
  const Oo: Sound := ConcreteVowel("open-mid", "back", true, "short", "ɔ")
  const O: Sound := ConcreteVowel("close-mid", "back", true, "short", "o")
  const U: Sound := ConcreteVowel("close", "back", true, "short", "u")

  const B: Sound := ConcreteConsonant("bilabial", "stop", true, "b", false)
  const D: Sound := ConcreteConsonant("alveolar", "stop", true, "d", false)
  const F: Sound := ConcreteConsonant("labio-dental", "frictative", false, "f", false)
  const G: Sound := ConcreteConsonant("velar", "stop", true, "g", false)
  const Gh: Sound := ConcreteConsonant("velar", "frictative", true, "Ɣ", false)
  const H: Sound := ConcreteConsonant("glottal", "frictative", false, "h", false)
  const J: Sound := ConcreteConsonant("palatal", "frictative", true, "j", false)
  const K: Sound := ConcreteConsonant("velar", "stop", false, "k", false)
  const L: Sound := ConcreteConsonant("alveolar", "lateral", true, "l", false)
  const M: Sound := ConcreteConsonant("bilabial", "nasal", true, "m", false)
  const N: Sound := ConcreteConsonant("labio-dental", "nasal", true, "n", false)
  const P: Sound := ConcreteConsonant("bilabial", "stop", false, "p", false)
  const R: Sound := ConcreteConsonant("alveolar", "trill", false, "r", false)
  const S: Sound := ConcreteConsonant("alveolar", "frictative", false, "s", false)
  const T: Sound := ConcreteConsonant("alveolar", "stop", false, "t", false)
  const V: Sound := ConcreteConsonant("labio-dental", "frictative", true, "v", false)
  const Th: Sound := ConcreteConsonant("dental", "frictative", false, "θ", false)
  const Dh: Sound := ConcreteConsonant("dental", "frictative", true, "ð", false)

  /** The short vowels of the inventory are concrete sounds. */
  lemma VowelInventoryConcrete()
    ensures Concrete(A) && Concrete(Ee) && Concrete(E) && Concrete(Oee) && Concrete(Oe) && Concrete(I)
    ensures Concrete(Y) && Concrete(AoVowel) && Concrete(Oo) && Concrete(O) && Concrete(U)
  {
  }

  /** The consonants of the inventory are concrete sounds. */
  lemma ConsonantInventoryConcrete()
    ensures Concrete(B) && Concrete(D) && Concrete(F) && Concrete(G) && Concrete(Gh) && Concrete(H)
    ensures Concrete(J) && Concrete(K) && Concrete(L) && Concrete(M) && Concrete(N) && Concrete(P)
    ensures Concrete(R) && Concrete(S) && Concrete(T) && Concrete(V) && Concrete(Th) && Concrete(Dh)
  {
  }

  /** What an orthographic table maps a letter to: a sound, or (for `ǫ` only)
      the one-element tuple wrapping a sound, which has no sound attributes. */
  datatype Entry = Snd(sound: Sound) | OneTuple(sound: Sound)

  predicate EntryConcrete(e: Entry) {
    Concrete(e.sound)
  }

  /** `IPA_class`: letter to sound, as a lookup that gives `None` for a letter
      without an entry. Every entry is (or wraps) a concrete sound, and only
      `ǫ` maps to a one-element tuple. */
  function IpaClass(c: char): (r: Option<Entry>)
    ensures r.Some? ==> EntryConcrete(r.value)
    ensures r.Some? ==> (r.value.OneTuple? <==> c == 'ǫ')
  {
    VowelInventoryConcrete();
    ConsonantInventoryConcrete();
    match c
    // short vowels
    case 'a' => Some(Snd(A))
    case 'e' => Some(Snd(Ee))
    case 'i' => Some(Snd(I))
    case 'o' => Some(Snd(Oo))
    case 'ǫ' => Some(OneTuple(AoVowel))
    case 'ø' => Some(Snd(Oee))
    case 'u' => Some(Snd(U))
    case 'y' => Some(Snd(Y))
    // long vowels
    case 'á' => Some(Snd(Lengthen(A)))
    case 'æ' => Some(Snd(Lengthen(Ee)))
    case 'ö' => Some(Snd(Oe))
    case 'œ' => Some(Snd(Lengthen(Oe)))
    case 'é' => Some(Snd(Lengthen(E)))
    case 'í' => Some(Snd(Lengthen(I)))
    case 'ó' => Some(Snd(Lengthen(O)))
    case 'ú' => Some(Snd(Lengthen(U)))
    case 'ý' => Some(Snd(Lengthen(Y)))
    // consonants
    case 'b' => Some(Snd(B))
    case 'd' => Some(Snd(D))
    case 'f' => Some(Snd(F))
    case 'g' => Some(Snd(G))
    case 'h' => Some(Snd(H))
    case 'j' => Some(Snd(J))
    case 'k' => Some(Snd(K))
    case 'l' => Some(Snd(L))
    case 'm' => Some(Snd(M))
    case 'n' => Some(Snd(N))
    case 'p' => Some(Snd(P))
    case 'r' => Some(Snd(R))
    case 's' => Some(Snd(S))
    case 't' => Some(Snd(T))
    case 'v' => Some(Snd(V))
    case 'þ' => Some(Snd(Th))
    case 'ð' => Some(Snd(Dh))
    case _ => None
  }

  /** `DIPHTONGS_IPA_class`: two-letter spelling to diphthong vowel, as a
      lookup. Its keys are those of `DIPHTONGS_IPA`, the table the first pass
      tests membership in; each is two different letters that have entries. */
  function DiphthongClass(s: string): (r: Option<Sound>)
    ensures r.Some? ==> Concrete(r.value)
    ensures r.Some? ==> |s| == 2 && s[0] != s[1] && IpaClass(s[0]).Some? && IpaClass(s[1]).Some?
  {
    if s == "ey" then Some(ConcreteVowel("open", "front", true, "short", "ɐy"))
    else if s == "au" then Some(ConcreteVowel("open", "back", true, "short", "ɒu"))
    else if s == "øy" then Some(ConcreteVowel("open", "front", true, "short", "ɐy"))
    else if s == "ei" then Some(ConcreteVowel("open", "front", true, "short", "ɛi"))
    else None
  }

  /** No upper-case ASCII letter has an entry. */
  lemma UppercaseAbsent(c: char)
    requires 'A' <= c <= 'Z'
    ensures IpaClass(c).None?
  {
  }

  // ---------------------------------------------------------------------------
  // Positions and rules

  datatype Tag = First | Inner | Last

  /** A sound's place in a word with its neighbours; in a rule, a pattern whose
      absent neighbours are wildcards. */
  datatype Position = Position(tag: Tag, before: Option<Sound>, after: Option<Sound>)

  /** `Rule(position, temp_sound, estimated_sound)`. */
  datatype Rule = Rule(position: Position, trigger: Sound, replacement: Sound)

  predicate NeighboursConcrete(p: Position) {
    (p.before.Some? ==> Concrete(p.before.value)) && (p.after.Some? ==> Concrete(p.after.value))
  }

  /** `Position.real_sound_match_abstract_sound`: an actual position against a
      pattern. The tags must be equal, and each neighbour that actually exists
      must match the pattern's neighbour there (an absent pattern neighbour
      matches anything). */
  function PositionMatches(actual: Position, pattern: Position): (r: bool)
    requires NeighboursConcrete(actual)
    ensures r <==> && actual.tag == pattern.tag
                   && (actual.before.Some? ==> Match(actual.before.value, pattern.before))
                   && (actual.after.Some? ==> Match(actual.after.value, pattern.after))
  {
    if actual.before.Some? && actual.after.Some? then
      actual.tag == pattern.tag && Match(actual.before.value, pattern.before)
      && Match(actual.after.value, pattern.after)
    else if actual.before.None? && actual.after.None? then
      actual.tag == pattern.tag
    else if actual.before.None? then
      actual.tag == pattern.tag && Match(actual.after.value, pattern.after)
    else
      actual.tag == pattern.tag && Match(actual.before.value, pattern.before)
  }

  const VoicedC: Sound := Consonant(None, None, Some(true), None, None)
  const VoicelessC: Sound := Consonant(None, None, Some(false), None, None)

  /** `rule_th`: θ stays θ word-initially and next to a voiced consonant, and
      becomes ð elsewhere inside and at the end of a word. */
  const RuleTh: seq<Rule> := [
    Rule(Position(First, None, None), Th, Th),
    Rule(Position(Inner, None, Some(VoicedC)), Th, Th),
    Rule(Position(Inner, Some(VoicedC), None), Th, Th),
    Rule(Position(Inner, None, None), Th, Dh),
    Rule(Position(Last, None, None), Th, Dh)
  ]

  /** `rule_f`: f stays f word-initially and next to a voiceless consonant, and
      becomes v elsewhere inside and at the end of a word. */
  const RuleF: seq<Rule> := [
    Rule(Position(First, None, None), F, F),
    Rule(Position(Inner, None, Some(VoicelessC)), F, F),
    Rule(Position(Inner, Some(VoicelessC), None), F, F),
    Rule(Position(Inner, None, None), F, V),
    Rule(Position(Last, None, None), F, V)
  ]

  /** `rule_g`: g stays g word-initially and after n, becomes k before a
      voiceless consonant, and becomes Ɣ elsewhere. */
  const RuleG: seq<Rule> := [
    Rule(Position(First, None, None), G, G),
    Rule(Position(Inner, Some(N), None), G, G),
    Rule(Position(Inner, None, Some(VoicelessC)), G, K),
    Rule(Position(Inner, None, None), G, Gh),
    Rule(Position(Last, None, None), G, Gh)
  ]

  /** A rule fires on a segment whose symbol is its trigger's symbol, at a
      position its pattern matches (`rule.apply`). */
  predicate Fires(rule: Rule, sym: string, pos: Position)
    requires NeighboursConcrete(pos)
  {
    rule.trigger.ipar == Some(sym) && PositionMatches(pos, rule.position)
  }

  /** The index of the first rule that fires, if any. */
  function FirstMatch(rules: seq<Rule>, sym: string, pos: Position): (k: Option<nat>)
    requires NeighboursConcrete(pos)
    ensures k.Some? ==> k.value < |rules| && Fires(rules[k.value], sym, pos)
    ensures k.Some? ==> forall j :: 0 <= j < k.value ==> !Fires(rules[j], sym, pos)
    ensures k.None? ==> forall j :: 0 <= j < |rules| ==> !Fires(rules[j], sym, pos)
  {
    if |rules| == 0 then None
    else if Fires(rules[0], sym, pos) then Some(0)
    else
      match FirstMatch(rules[1..], sym, pos)
      case None => None
      case Some(k) => Some(k + 1)
  }

  /** Rules placed before a list that cannot fire do not change which rule of
      the list is chosen. */
  lemma {:induction false} FirstMatchSkipsSilentPrefix(pre: seq<Rule>, rules: seq<Rule>, sym: string, pos: Position)
    requires NeighboursConcrete(pos)
    requires forall j :: 0 <= j < |pre| ==> !Fires(pre[j], sym, pos)
    ensures FirstMatch(pre + rules, sym, pos) ==
            match FirstMatch(rules, sym, pos)
            case None => None
            case Some(k) => Some(|pre| + k)
  {
    if |pre| == 0 {
      assert pre + rules == rules;
    } else {
      assert (pre + rules)[0] == pre[0];
      assert (pre + rules)[1..] == pre[1..] + rules;
      FirstMatchSkipsSilentPrefix(pre[1..], rules, sym, pos);
    }
  }

  /** Rules placed after a list in which some rule fires are never consulted. */
  lemma {:induction false} FirstMatchIgnoresSuffix(rules: seq<Rule>, post: seq<Rule>, sym: string, pos: Position)
    requires NeighboursConcrete(pos)
    requires FirstMatch(rules, sym, pos).Some?
    ensures FirstMatch(rules + post, sym, pos) == FirstMatch(rules, sym, pos)
  {
    assert (rules + post)[0] == rules[0];
    if !Fires(rules[0], sym, pos) {
      assert (rules + post)[1..] == rules[1..] + post;
      FirstMatchIgnoresSuffix(rules[1..], post, sym, pos);
    }
  }

  // ---------------------------------------------------------------------------
  // First pass: greedy segmentation

  function Lookup(c: char): (r: Result<Entry>)
    ensures r.Ok? <==> IpaClass(c).Some?
    ensures r.Err? ==> r.error == KeyError
    ensures r.Ok? ==> r.value == IpaClass(c).value
  {
    match IpaClass(c)
    case Some(e) => Ok(e)
    case None => Err(KeyError)
  }

  /** `.lengthen()` on a table entry: the one-element tuple has no such method. */
  function LengthenEntry(e: Entry): (r: Result<Entry>)
    requires EntryConcrete(e)
    ensures r.Ok? <==> e.Snd?
    ensures r.Err? ==> r.error == AttributeError
    ensures r.Ok? ==> r.value.Snd? && EntryConcrete(r.value)
  {
    match e
    case Snd(s) => Ok(Snd(Lengthen(s)))
    case OneTuple(_) => Err(AttributeError)
  }

  /** The first failure, or `head` followed by the value of `tail`. */
  function Prepend(head: seq<Entry>, tail: Result<seq<Entry>>): Result<seq<Entry>>
  {
    match tail
    case Ok(t) => Ok(head + t)
    case Err(e) => Err(e)
  }

  lemma PrependAssoc(a: seq<Entry>, b: seq<Entry>, t: Result<seq<Entry>>)
    ensures Prepend(a, Prepend(b, t)) == Prepend(a + b, t)
  {
    if t.Ok? {
      assert a + (b + t.value) == (a + b) + t.value;
    }
  }

  predicate AllConcrete(es: seq<Entry>) {
    forall k :: 0 <= k < |es| ==> EntryConcrete(es[k])
  }

  /** The result of the first pass on the rest `w` of a word, read left to
      right: a diphthong spelling first, then two identical letters, then a
      single letter. */
  function FirstPass(w: string): (r: Result<seq<Entry>>)
    ensures r.Ok? ==> AllConcrete(r.value)
    ensures r.Ok? ==> (|r.value| == 0 <==> |w| == 0)
    ensures r.Err? ==> r.error == KeyError || r.error == AttributeError
    decreases |w|
  {
    if |w| == 0 then Ok([])
    else if |w| == 1 then
      match Lookup(w[0])
      case Err(x) => Err(x)
      case Ok(e) => Ok([e])
    else if DiphthongClass(w[..2]).Some? then
            Prepend([Snd(DiphthongClass(w[..2]).value)], FirstPass(w[2..]))
    else if w[0] == w[1] then
      match Lookup(w[0])
      case Err(x) => Err(x)
      case Ok(e) =>
        match LengthenEntry(e)
        case Err(x) => Err(x)
        case Ok(l) => Prepend([l], FirstPass(w[2..]))
    else
      match Lookup(w[0])
      case Err(x) => Err(x)
      case Ok(e) => Prepend([e], FirstPass(w[1..]))
  }

  /** `Transcriber.first_process`: the empty word fails on `word[0]`. */
  function FirstProcessSpec(word: string): (r: Result<seq<Entry>>)
    ensures r == Err(IndexError) <==> |word| == 0
    ensures r.Ok? ==> |r.value| > 0 && AllConcrete(r.value)
    ensures r.Err? ==> r.error in {IndexError, KeyError, AttributeError}
  {
    if |word| == 0 then Err(IndexError) else FirstPass(word)
  }

  /** `Transcriber.first_process`, with its skip flag. */
  method FirstProcess(word: string) returns (r: Result<seq<Entry>>)
    ensures r == FirstProcessSpec(word)
  {
    var firstRes: seq<Entry> := [];
    var isRepeated := false;
    if |word| >= 2 {
      assert word[0..] == word;
      assert Prepend([], FirstPass(word)) == FirstPass(word) by {
        if FirstPass(word).Ok? {
          assert [] + FirstPass(word).value == FirstPass(word).value;
        }
      }
      for i := 0 to |word| - 1
        invariant (if isRepeated then i + 1 else i) <= |word|
        invariant AllConcrete(firstRes)
        invariant FirstPass(word) == Prepend(firstRes, FirstPass(word[(if isRepeated then i + 1 else i)..]))
      {
        if isRepeated {
          isRepeated := false;
          continue;
        }
        ghost var rest := word[i..];
        assert rest[..2] == word[i..i + 2] && rest[0] == word[i] && rest[1] == word[i + 1];
        assert rest[2..] == word[i + 2..] && rest[1..] == word[i + 1..];
        if DiphthongClass(word[i..i + 2]).Some? {
          var x := Snd(DiphthongClass(word[i..i + 2]).value);
          assert FirstPass(rest) == Prepend([x], FirstPass(word[i + 2..]));
          PrependAssoc(firstRes, [x], FirstPass(word[i + 2..]));
          firstRes := firstRes + [x];
          isRepeated := true;
        } else if word[i] == word[i + 1] {
          var e := Lookup(word[i]);
          if e.Err? {
            return Err(e.error);
          }
          var l := LengthenEntry(e.value);
          if l.Err? {
            return Err(l.error);
          }
          assert FirstPass(rest) == Prepend([l.value], FirstPass(word[i + 2..]));
          PrependAssoc(firstRes, [l.value], FirstPass(word[i + 2..]));
          firstRes := firstRes + [l.value];
          isRepeated := true;
        } else {
          var e := Lookup(word[i]);
          if e.Err? {
            return Err(e.error);
          }
          assert FirstPass(rest) == Prepend([e.value], FirstPass(word[i + 1..]));
          PrependAssoc(firstRes, [e.value], FirstPass(word[i + 1..]));
          firstRes := firstRes + [e.value];
        }
      }
      if !isRepeated {
        assert word[|word| - 1..] == [word[|word| - 1]];
        var e := Lookup(word[|word| - 1]);
        if e.Err? {
          return Err(e.error);
        }
        firstRes := firstRes + [e.value];
      } else {
        assert word[|word|..] == [];
        assert firstRes + [] == firstRes;
      }
    } else {
      if |word| == 0 {
        return Err(IndexError);
      }
      var e := Lookup(word[0]);
      if e.Err? {
        return Err(e.error);
      }
      firstRes := firstRes + [e.value];
      assert firstRes == [e.value];
    }
    return Ok(firstRes);
  }

  // ---------------------------------------------------------------------------
  // Segmentation coverage

  /** The letters each segment of the first pass consumes. */
  function Chunks(w: string): (cs: seq<string>)
    ensures forall k :: 0 <= k < |cs| ==> WellFormedChunk(cs[k])
    decreases |w|
  {
    if |w| == 0 then []
    else if |w| == 1 then [w]
    else if DiphthongClass(w[..2]).Some? || w[0] == w[1] then [w[..2]] + Chunks(w[2..])
    else [w[..1]] + Chunks(w[1..])
  }

  /** A chunk of two letters is a diphthong spelling or a doubled letter. */
  predicate WellFormedChunk(c: string) {
    |c| == 1 || (|c| == 2 && (DiphthongClass(c).Some? || c[0] == c[1]))
  }

  /** Every letter of a word is consumed exactly once, in order, by chunks of
      one or two letters; so there are between ⌈n/2⌉ and n chunks. */
  lemma {:induction false} ChunksCover(w: string)
    ensures Flatten(Chunks(w)) == w
    ensures (|w| + 1) / 2 <= |Chunks(w)| <= |w|
    decreases |w|
  {
    if |w| == 0 {
    } else if |w| == 1 {
      FlattenCons(w, []);
      assert [w] + [] == [w];
    } else if DiphthongClass(w[..2]).Some? || w[0] == w[1] {
      ChunksCover(w[2..]);
      FlattenCons(w[..2], Chunks(w[2..]));
      assert w[..2] + w[2..] == w;
    } else {
      ChunksCover(w[1..]);
      FlattenCons(w[..1], Chunks(w[1..]));
      assert w[..1] + w[1..] == w;
    }
  }

  /** The segment the first pass makes of one chunk. */
  function ChunkSegment(c: string): (r: Result<Entry>)
    requires WellFormedChunk(c)
    ensures r.Ok? ==> EntryConcrete(r.value)
  {
    if |c| == 2 && DiphthongClass(c).Some? then Ok(Snd(DiphthongClass(c).value))
    else if |c| == 2 then
      match Lookup(c[0])
      case Err(x) => Err(x)
      case Ok(e) => LengthenEntry(e)
    else Lookup(c[0])
  }

  /** The segments of a sequence of chunks, failing at the first chunk whose
      segment fails. */
  function SegmentAll(cs: seq<string>): Result<seq<Entry>>
    requires forall k :: 0 <= k < |cs| ==> WellFormedChunk(cs[k])
  {
    if |cs| == 0 then Ok([])
    else
      match ChunkSegment(cs[0])
      case Err(x) => Err(x)
      case Ok(e) => Prepend([e], SegmentAll(cs[1..]))
  }

  /** Segmenting chunk by chunk succeeds exactly when every chunk's segment
      does, and then gives one segment per chunk, in order. */
  lemma {:induction false} SegmentAllPointwise(cs: seq<string>)
    requires forall k :: 0 <= k < |cs| ==> WellFormedChunk(cs[k])
    ensures SegmentAll(cs).Ok? <==> forall k :: 0 <= k < |cs| ==> ChunkSegment(cs[k]).Ok?
    ensures SegmentAll(cs).Ok? ==> && |SegmentAll(cs).value| == |cs|
                                   && forall k :: 0 <= k < |cs| ==> SegmentAll(cs).value[k] == ChunkSegment(cs[k]).value
  {
    if |cs| > 0 {
      SegmentAllPointwise(cs[1..]);
      assert forall k :: 1 <= k < |cs| ==> cs[k] == cs[1..][k - 1];
    }
  }

  /** The first pass is the chunk-by-chunk segmentation of the word. */
  lemma {:induction false} FirstPassIsSegmentAll(w: string)
    ensures FirstPass(w) == SegmentAll(Chunks(w))
    decreases |w|
  {
    if |w| == 1 {
      assert Chunks(w) == [w];
      assert [w][1..] == [];
      match Lookup(w[0])
      case Err(_) =>
      case Ok(e) => assert [e] + [] == [e];
    } else if |w| >= 2 {
      var n := if DiphthongClass(w[..2]).Some? || w[0] == w[1] then 2 else 1;
      var cs := Chunks(w);
      assert cs == [w[..n]] + Chunks(w[n..]);
      assert cs[0] == w[..n] && cs[1..] == Chunks(w[n..]);
      assert w[..n][0] == w[0];
      FirstPassIsSegmentAll(w[n..]);
    }
  }

  /** The first pass makes exactly one segment per chunk, in order, and fails
      exactly when the segment of some chunk fails. */
  lemma FirstPassPerChunk(w: string)
    ensures FirstPass(w).Ok? <==> forall k :: 0 <= k < |Chunks(w)| ==> ChunkSegment(Chunks(w)[k]).Ok?
    ensures FirstPass(w).Ok? ==> && |FirstPass(w).value| == |Chunks(w)|
                                 && forall k :: 0 <= k < |Chunks(w)| ==>
                                      FirstPass(w).value[k] == ChunkSegment(Chunks(w)[k]).value
  {
    FirstPassIsSegmentAll(w);
    SegmentAllPointwise(Chunks(w));
  }

  /** The first pass segments into between ⌈n/2⌉ and n segments. */
  lemma FirstProcessLength(word: string)
    requires FirstProcessSpec(word).Ok?
    ensures 1 <= (|word| + 1) / 2 <= |FirstProcessSpec(word).value| <= |word|
  {
    FirstPassPerChunk(word);
    ChunksCover(word);
  }

  /** A diphthong spelling at the start of a word yields one diphthong vowel,
      even where a doubled letter could also be read. */
  lemma FirstPassDiphthongFirst(w: string)
    requires |w| >= 2 && DiphthongClass(w[..2]).Some? && FirstPass(w).Ok?
    ensures FirstPass(w).value[0] == Snd(DiphthongClass(w[..2]).value)
  {
    assert FirstPass(w) == Prepend([Snd(DiphthongClass(w[..2]).value)], FirstPass(w[2..]));
  }

  /** Two identical letters that do not spell a diphthong yield one lengthened
      segment. */
  lemma FirstPassGeminate(w: string)
    requires |w| >= 2 && DiphthongClass(w[..2]).None? && w[0] == w[1] && FirstPass(w).Ok?
    ensures IpaClass(w[0]).Some? && IpaClass(w[0]).value.Snd?
    ensures FirstPass(w).value[0] == Snd(Lengthen(IpaClass(w[0]).value.sound))
  {
  }

  /** The letters of a chunk whose segment succeeds have table entries. */
  lemma ChunkLettersKnown(c: string)
    requires WellFormedChunk(c) && ChunkSegment(c).Ok?
    ensures forall k :: 0 <= k < |c| ==> IpaClass(c[k]).Some?
  {
    if |c| == 2 && DiphthongClass(c).None? {
      assert Lookup(c[0]).Ok?;
    }
  }

  /** A word the first pass accepts is spelled only with letters that have
      table entries; so any other letter, upper case included, makes it
      fail. */
  lemma FirstPassNeedsKnownLetters(w: string)
    requires FirstPass(w).Ok?
    ensures forall k :: 0 <= k < |w| ==> IpaClass(w[k]).Some?
  {
    var cs := Chunks(w);
    FirstPassPerChunk(w);
    ChunksCover(w);
    FlattenMembers(cs);
    forall k | 0 <= k < |w|
      ensures IpaClass(w[k]).Some?
    {
      assert w[k] in Flatten(cs);
      var j :| 0 <= j < |cs| && w[k] in cs[j];
      ChunkLettersKnown(cs[j]);
    }
  }

  /** The failure cases of `first_process`: the empty word, and any letter
      without a table entry. */
  lemma FirstProcessFailures(word: string)
    ensures |word| == 0 ==> FirstProcessSpec(word) == Err(IndexError)
    ensures (exists k :: 0 <= k < |word| && IpaClass(word[k]).None?) ==> FirstProcessSpec(word).Err?
  {
    if |word| > 0 && FirstPass(word).Ok? {
      FirstPassNeedsKnownLetters(word);
    }
  }

  /** Conversely, a word of known letters in which `ǫ` is never doubled is
      segmented without failure. */
  lemma {:induction false} FirstPassSucceeds(w: string)
    requires forall k :: 0 <= k < |w| ==> IpaClass(w[k]).Some?
    requires forall k :: 0 <= k < |w| - 1 ==> !(w[k] == 'ǫ' && w[k + 1] == 'ǫ')
    ensures FirstPass(w).Ok?
    decreases |w|
  {
    if |w| >= 2 {
      var n := if DiphthongClass(w[..2]).Some? || w[0] == w[1] then 2 else 1;
      assert forall k :: 0 <= k < |w[n..]| ==> w[n..][k] == w[k + n];
      FirstPassSucceeds(w[n..]);
    }
  }

  // ---------------------------------------------------------------------------
  // Second pass: first-match-wins rewriting

  predicate AllConcreteSounds(segs: seq<Sound>) {
    forall k :: 0 <= k < |segs| ==> Concrete(segs[k])
  }

  /** The position the second pass builds for segment `i`; a first segment is
      given itself as its following neighbour. */
  function PositionAt(segs: seq<Sound>, i: nat): (p: Position)
    requires 2 <= |segs| && i < |segs| && AllConcreteSounds(segs)
    ensures NeighboursConcrete(p)
  {
    if i == 0 then Position(First, None, Some(segs[i]))
    else if i < |segs| - 1 then Position(Inner, Some(segs[i - 1]), Some(segs[i + 1]))
    else Position(Last, Some(segs[i - 1]), None)
  }

  /** The symbol emitted for segment `i`: the replacement's symbol of the first
      rule that fires, else the segment's own. A replacement without a symbol
      emits nothing usable. */
  function Emitted(segs: seq<Sound>, i: nat, rules: seq<Rule>): (r: Option<string>)
    requires 2 <= |segs| && i < |segs| && AllConcreteSounds(segs)
    ensures (forall k :: 0 <= k < |rules| ==> !Fires(rules[k], Symbol(segs[i]), PositionAt(segs, i)))
            ==> r == Some(Symbol(segs[i]))
    ensures r != Some(Symbol(segs[i])) ==>
              exists k :: 0 <= k < |rules| && Fires(rules[k], Symbol(segs[i]), PositionAt(segs, i))
                          && r == rules[k].replacement.ipar
  {
    match FirstMatch(rules, Symbol(segs[i]), PositionAt(segs, i))
    case Some(k) => rules[k].replacement.ipar
    case None => Some(Symbol(segs[i]))
  }

  /** `"".join(res)`: fails if some emitted item is not a string. */
  function Join(res: seq<Option<string>>): (r: Result<string>)
    ensures r.Ok? <==> forall k :: 0 <= k < |res| ==> res[k].Some?
    ensures r.Err? ==> r.error == TypeError
  {
    if |res| == 0 then Ok("")
    else
      match Join(res[..|res| - 1])
      case Err(x) => Err(x)
      case Ok(prefix) => if res[|res| - 1].Some? then Ok(prefix + res[|res| - 1].value) else Err(TypeError)
  }

  function EmittedUpTo(segs: seq<Sound>, rules: seq<Rule>, n: nat): seq<Option<string>>
    requires 2 <= |segs| && n <= |segs| && AllConcreteSounds(segs)
  {
    seq(n, i requires 0 <= i < n => Emitted(segs, i, rules))
  }

  /** `Transcriber.second_process` on concrete segments: a single segment is
      emitted as it is; otherwise every segment's emitted symbol is joined. */
  function SecondPass(segs: seq<Sound>, rules: seq<Rule>): (r: Result<string>)
    requires 1 <= |segs| && AllConcreteSounds(segs)
    ensures |segs| == 1 ==> r == Ok(Symbol(segs[0]))
    ensures |segs| >= 2 ==> (r.Ok? <==> forall i :: 0 <= i < |segs| ==> Emitted(segs, i, rules).Some?)
    ensures r.Err? ==> r.error == TypeError
  {
    if |segs| == 1 then Ok(Symbol(segs[0]))
    else
      var emitted := EmittedUpTo(segs, rules, |segs|);
      assert forall k :: 0 <= k < |emitted| ==> emitted[k] == Emitted(segs, k, rules);
      Join(emitted)
  }

  predicate HasOneTuple(es: seq<Entry>) {
    exists k :: 0 <= k < |es| && es[k].OneTuple?
  }

  function SoundsOf(es: seq<Entry>): (r: seq<Sound>)
    requires AllConcrete(es)
    ensures |r| == |es| && AllConcreteSounds(r)
  {
    seq(|es|, k requires 0 <= k < |es| => es[k].sound)
  }

  /** `Transcriber.second_process` on first-pass output. Reading the symbol of
      a one-element tuple raises AttributeError; the empty input fails on
      `first_result[0]`. */
  function SecondProcessSpec(firstResult: seq<Entry>, rules: seq<Rule>): (r: Result<string>)
    requires AllConcrete(firstResult)
    ensures r == Err(IndexError) <==> |firstResult| == 0
    ensures r == Err(AttributeError) <==> |firstResult| > 0 && HasOneTuple(firstResult)
    ensures r.Err? ==> r.error in {IndexError, AttributeError, TypeError}
    ensures |firstResult| == 1 && !HasOneTuple(firstResult) ==> r == Ok(Symbol(firstResult[0].sound))
  {
    if |firstResult| == 0 then Err(IndexError)
    else if HasOneTuple(firstResult) then Err(AttributeError)
    else SecondPass(SoundsOf(firstResult), rules)
  }

  /** The inner loop of `second_process`: scan the rules in order and emit
      the replacement's symbol of the first whose trigger has the segment's
      symbol and whose position matches; if none does, the segment's own. */
  method EmitSegment(segs: seq<Sound>, i: nat, rules: seq<Rule>, currentPos: Position) returns (emitted: Option<string>)
    requires 2 <= |segs| && i < |segs| && AllConcreteSounds(segs)
    requires currentPos == PositionAt(segs, i)
    ensures emitted == Emitted(segs, i, rules)
  {
    var found := false;
    emitted := None;
    for ri := 0 to |rules|
      invariant !found ==> forall j :: 0 <= j < ri ==> !Fires(rules[j], Symbol(segs[i]), currentPos)
      invariant found ==> emitted == Emitted(segs, i, rules)
    {
      if rules[ri].trigger.ipar == segs[i].ipar {
        if PositionMatches(currentPos, rules[ri].position) {
          emitted := rules[ri].replacement.ipar;
          found := true;
          break;
        }
      }
    }
    if !found {
      emitted := segs[i].ipar;
    }
  }

  /** `Transcriber.second_process`: for each segment, scan the rules in order
      and emit the replacement of the first that fires, or the segment's own
      symbol; then join. */
  method SecondProcess(firstResult: seq<Entry>, rules: seq<Rule>) returns (r: Result<string>)
    requires AllConcrete(firstResult)
    ensures r == SecondProcessSpec(firstResult, rules)
  {
    if |firstResult| == 0 {
      return Err(IndexError);
    }
    if exists k :: 0 <= k < |firstResult| && firstResult[k].OneTuple? {
      return Err(AttributeError);
    }
    var segs := SoundsOf(firstResult);
    var res: seq<Option<string>> := [];
    if |segs| >= 2 {
      for i := 0 to |segs|
        invariant res == EmittedUpTo(segs, rules, i)
      {
        var currentPos: Position;
        if i == 0 {
          currentPos := Position(First, None, Some(segs[i]));
        } else if i < |segs| - 1 {
          currentPos := Position(Inner, Some(segs[i - 1]), Some(segs[i + 1]));
        } else {
          currentPos := Position(Last, Some(segs[i - 1]), None);
        }
        var emitted := EmitSegment(segs, i, rules, currentPos);
        res := res + [emitted];
      }
    } else {
      res := res + [segs[0].ipar];
      return Ok(Symbol(segs[0]));
    }
    r := Join(res);
  }

  // ---------------------------------------------------------------------------
  // Properties of the second pass

  /** Joining items that are all strings concatenates them. */
  lemma {:induction false} JoinAllPresent(res: seq<Option<string>>)
    requires forall k :: 0 <= k < |res| ==> res[k].Some?
    ensures Join(res) == Ok(Flatten(seq(|res|, k requires 0 <= k < |res| => res[k].value)))
  {
    if |res| > 0 {
      var init := res[..|res| - 1];
      JoinAllPresent(init);
      var vals := seq(|res|, k requires 0 <= k < |res| => res[k].value);
      assert vals[..|res| - 1] == seq(|init|, k requires 0 <= k < |init| => init[k].value);
    }
  }

  /** When every replacement has a symbol the join cannot fail, and the output
      is the concatenation, in segment order, of the symbols the segments emit. */
  lemma SecondPassOutput(segs: seq<Sound>, rules: seq<Rule>)
    requires 2 <= |segs| && AllConcreteSounds(segs)
    requires forall k :: 0 <= k < |rules| ==> rules[k].replacement.ipar.Some?
    ensures forall i :: 0 <= i < |segs| ==> Emitted(segs, i, rules).Some?
    ensures SecondPass(segs, rules)
            == Ok(Flatten(seq(|segs|, i requires 0 <= i < |segs| => Emitted(segs, i, rules).value)))
  {
    var res := EmittedUpTo(segs, rules, |segs|);
    JoinAllPresent(res);
    assert seq(|res|, k requires 0 <= k < |res| => res[k].value)
        == seq(|segs|, i requires 0 <= i < |segs| => Emitted(segs, i, rules).value);
  }

  /** With no rules, the output is the concatenation of the segments' symbols. */
  lemma SecondPassNoRules(segs: seq<Sound>)
    requires 1 <= |segs| && AllConcreteSounds(segs)
    ensures SecondPass(segs, []) == Ok(Flatten(seq(|segs|, k requires 0 <= k < |segs| => Symbol(segs[k]))))
  {
    var syms := seq(|segs|, k requires 0 <= k < |segs| => Symbol(segs[k]));
    if |segs| == 1 {
      assert syms == [Symbol(segs[0])];
      FlattenCons(Symbol(segs[0]), []);
      assert [Symbol(segs[0])] + [] == [Symbol(segs[0])];
      assert Symbol(segs[0]) + [] == Symbol(segs[0]);
    } else {
      SecondPassOutput(segs, []);
      assert syms == seq(|segs|, i requires 0 <= i < |segs| => Emitted(segs, i, []).value);
    }
  }

  /** A one-segment word is emitted as it is, whatever the rules. */
  lemma SecondPassSingle(s: Sound, rules: seq<Rule>)
    requires Concrete(s)
    ensures SecondPass([s], rules) == Ok(Symbol(s))
  {
  }

  /** Rules that cannot fire after the list leave the choice unchanged. */
  lemma {:induction false} FirstMatchSilentSuffix(rules: seq<Rule>, post: seq<Rule>, sym: string, pos: Position)
    requires NeighboursConcrete(pos)
    requires forall j :: 0 <= j < |post| ==> !Fires(post[j], sym, pos)
    ensures FirstMatch(rules + post, sym, pos) == FirstMatch(rules, sym, pos)
  {
    if |rules| == 0 {
      assert rules + post == post;
      FirstMatchSkipsSilentPrefix(post, [], sym, pos);
      assert post + [] == post;
    } else {
      assert (rules + post)[0] == rules[0];
      assert (rules + post)[1..] == rules[1..] + post;
      FirstMatchSilentSuffix(rules[1..], post, sym, pos);
    }
  }

  /** Rules triggered by other symbols, wherever they stand in the list, do not
      change what a segment emits: each list of `rule_th`, `rule_f`, `rule_g`
      keeps its meaning when the lists are concatenated. */
  lemma EmittedIgnoresOtherTriggers(segs: seq<Sound>, i: nat, pre: seq<Rule>, rules: seq<Rule>, post: seq<Rule>)
    requires 2 <= |segs| && i < |segs| && AllConcreteSounds(segs)
    requires forall j :: 0 <= j < |pre| ==> pre[j].trigger.ipar != Some(Symbol(segs[i]))
    requires forall j :: 0 <= j < |post| ==> post[j].trigger.ipar != Some(Symbol(segs[i]))
    ensures Emitted(segs, i, pre + rules + post) == Emitted(segs, i, rules)
  {
    var sym, pos := Symbol(segs[i]), PositionAt(segs, i);
    FirstMatchSkipsSilentPrefix(pre, rules + post, sym, pos);
    FirstMatchSilentSuffix(rules, post, sym, pos);
    assert pre + rules + post == pre + (rules + post);
    match FirstMatch(rules, sym, pos)
    case None =>
    case Some(k) => assert (pre + (rules + post))[|pre| + k] == rules[k];
  }

  // ---------------------------------------------------------------------------
  // The three rule lists

  /** A word-initial f stays f. */
  lemma RuleFInitial(segs: seq<Sound>)
    requires 2 <= |segs| && AllConcreteSounds(segs) && segs[0] == F
    ensures Emitted(segs, 0, RuleF) == Some("f")
  {
    assert Fires(RuleF[0], Symbol(segs[0]), PositionAt(segs, 0));
  }

  /** An f between two vowels becomes v. */
  lemma RuleFBetweenVowels(segs: seq<Sound>, i: nat)
    requires 0 < i < |segs| - 1 && AllConcreteSounds(segs) && segs[i] == F
    requires segs[i - 1].Vowel? && segs[i + 1].Vowel?
    ensures Emitted(segs, i, RuleF) == Some("v")
  {
    var pos := PositionAt(segs, i);
    assert !Fires(RuleF[0], "f", pos) && !Fires(RuleF[1], "f", pos) && !Fires(RuleF[2], "f", pos);
    assert Fires(RuleF[3], "f", pos);
  }

  /** An f next to a voiceless consonant inside a word stays f. */
  lemma RuleFBesideVoiceless(segs: seq<Sound>, i: nat)
    requires 0 < i < |segs| - 1 && AllConcreteSounds(segs) && segs[i] == F
    requires (segs[i + 1].Consonant? && segs[i + 1].voiced == Some(false))
          || (segs[i - 1].Consonant? && segs[i - 1].voiced == Some(false))
    ensures Emitted(segs, i, RuleF) == Some("f")
  {
    var pos := PositionAt(segs, i);
    assert !Fires(RuleF[0], "f", pos);
    if !Fires(RuleF[1], "f", pos) {
      assert Fires(RuleF[2], "f", pos);
    }
  }

  /** A word-final f becomes v. */
  lemma RuleFFinal(segs: seq<Sound>)
    requires 2 <= |segs| && AllConcreteSounds(segs) && segs[|segs| - 1] == F
    ensures Emitted(segs, |segs| - 1, RuleF) == Some("v")
  {
    var pos := PositionAt(segs, |segs| - 1);
    assert !Fires(RuleF[0], "f", pos) && !Fires(RuleF[1], "f", pos) && !Fires(RuleF[2], "f", pos);
    assert !Fires(RuleF[3], "f", pos) && Fires(RuleF[4], "f", pos);
  }

  /** A θ between two vowels becomes ð, and a word-final θ becomes ð. */
  lemma RuleThVoicing(segs: seq<Sound>, i: nat)
    requires 0 < i < |segs| && AllConcreteSounds(segs) && segs[i] == Th
    requires i < |segs| - 1 ==> segs[i - 1].Vowel? && segs[i + 1].Vowel?
    ensures Emitted(segs, i, RuleTh) == Some("ð")
  {
    var pos := PositionAt(segs, i);
    assert !Fires(RuleTh[0], "θ", pos) && !Fires(RuleTh[1], "θ", pos) && !Fires(RuleTh[2], "θ", pos);
    if i < |segs| - 1 {
      assert Fires(RuleTh[3], "θ", pos);
    } else {
      assert !Fires(RuleTh[3], "θ", pos) && Fires(RuleTh[4], "θ", pos);
    }
  }

  /** A word-initial θ stays θ. */
  lemma RuleThInitial(segs: seq<Sound>)
    requires 2 <= |segs| && AllConcreteSounds(segs) && segs[0] == Th
    ensures Emitted(segs, 0, RuleTh) == Some("θ")
  {
    assert Fires(RuleTh[0], "θ", PositionAt(segs, 0));
  }

  /** A g right after n inside a word stays g. */
  lemma RuleGAfterN(segs: seq<Sound>, i: nat)
    requires 0 < i < |segs| - 1 && AllConcreteSounds(segs) && segs[i] == G && segs[i - 1] == N
    ensures Emitted(segs, i, RuleG) == Some("g")
  {
    var pos := PositionAt(segs, i);
    assert !Fires(RuleG[0], "g", pos) && Fires(RuleG[1], "g", pos);
  }

  /** Inside a word, a g after a vowel becomes k before a voiceless consonant
      and Ɣ before a vowel. */
  lemma RuleGAfterVowel(segs: seq<Sound>, i: nat)
    requires 0 < i < |segs| - 1 && AllConcreteSounds(segs) && segs[i] == G && segs[i - 1].Vowel?
    ensures segs[i + 1].Consonant? && segs[i + 1].voiced == Some(false) ==> Emitted(segs, i, RuleG) == Some("k")
    ensures segs[i + 1].Vowel? ==> Emitted(segs, i, RuleG) == Some("Ɣ")
  {
    var pos := PositionAt(segs, i);
    assert !Fires(RuleG[0], "g", pos) && !Fires(RuleG[1], "g", pos);
    if segs[i + 1].Vowel? {
      assert !Fires(RuleG[2], "g", pos) && Fires(RuleG[3], "g", pos);
    } else if segs[i + 1].voiced == Some(false) {
      assert Fires(RuleG[2], "g", pos);
    }
  }

  /** A word-final g becomes Ɣ. */
  lemma RuleGFinal(segs: seq<Sound>)
    requires 2 <= |segs| && AllConcreteSounds(segs) && segs[|segs| - 1] == G
    ensures Emitted(segs, |segs| - 1, RuleG) == Some("Ɣ")
  {
    var pos := PositionAt(segs, |segs| - 1);
    assert !Fires(RuleG[0], "g", pos) && !Fires(RuleG[1], "g", pos) && !Fires(RuleG[2], "g", pos);
    assert !Fires(RuleG[3], "g", pos) && Fires(RuleG[4], "g", pos);
  }

  /** The list the module's script builds for whole sentences: `rule_f`, then
      `rule_g`, then `rule_th`. */
  const Combined: seq<Rule> := RuleF + RuleG + RuleTh

  /** In the combined list every segment is treated by the list of its own
      symbol, and a segment that none of the lists is about is emitted as it is. */
  lemma CombinedAgreesWithOwnList(segs: seq<Sound>, i: nat)
    requires 2 <= |segs| && i < |segs| && AllConcreteSounds(segs)
    ensures Symbol(segs[i]) == "f" ==> Emitted(segs, i, Combined) == Emitted(segs, i, RuleF)
    ensures Symbol(segs[i]) == "g" ==> Emitted(segs, i, Combined) == Emitted(segs, i, RuleG)
    ensures Symbol(segs[i]) == "θ" ==> Emitted(segs, i, Combined) == Emitted(segs, i, RuleTh)
    ensures Symbol(segs[i]) !in {"f", "g", "θ"} ==> Emitted(segs, i, Combined) == Some(Symbol(segs[i]))
  {
    var sym := Symbol(segs[i]);
    if sym == "f" {
      EmittedIgnoresOtherTriggers(segs, i, [], RuleF, RuleG + RuleTh);
      assert [] + RuleF + (RuleG + RuleTh) == Combined;
    } else if sym == "g" {
      EmittedIgnoresOtherTriggers(segs, i, RuleF, RuleG, RuleTh);
    } else if sym == "θ" {
      EmittedIgnoresOtherTriggers(segs, i, RuleF + RuleG, RuleTh, []);
      assert RuleF + RuleG + RuleTh + [] == Combined;
    } else {
      EmittedIgnoresOtherTriggers(segs, i, Combined, [], []);
      assert Combined + [] + [] == Combined;
    }
  }
}
