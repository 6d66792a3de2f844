/** The Old Norse sound model: consonants and vowels as feature records.

    One datatype covers both the abstract form (a pattern whose absent
    features mean "don't care") and the concrete form (every feature present);
    `Concrete` tells them apart. Features are the strings of the source's
    enumerations; `WellFormed` says that each present feature is drawn from its
    enumeration. */
module Sounds {
  import opened Wrappers

  const Places: seq<string> :=
    ["bilabial", "labio-dental", "dental", "alveolar", "post-alveolar", "retroflex", "palatal", "velar", "uvular",
     "glottal"]
  const Manners: seq<string> := ["nasal", "stop", "lateral", "frictative", "trill"]
  const Heights: seq<string> := ["open", "near-open", "open-mid", "mid", "close-mid", "near-close", "close"]
  const Backnesses: seq<string> := ["front", "central", "back"]
  const Lengths: seq<string> := ["short", "long", "overlong"]

  /** A consonant or a vowel; `ipar` is its phonetic symbol. */
  datatype Sound =
    | Consonant(place: Option<string>, manner: Option<string>, voiced: Option<bool>,
                ipar: Option<string>, geminate: Option<bool>)
    | Vowel(height: Option<string>, backness: Option<string>, rounded: Option<bool>,
            length: Option<string>, ipar: Option<string>)

  /** An absent feature, or one drawn from `domain`. */
  predicate InDomain(f: Option<string>, domain: seq<string>) {
    f.None? || f.value in domain
  }

  /** The invariant of every sound the constructors accept. */
  predicate WellFormed(s: Sound) {
    match s
    case Consonant(p, m, _, _, _) => InDomain(p, Places) && InDomain(m, Manners)
    case Vowel(h, b, _, l, _) => InDomain(h, Heights) && InDomain(b, Backnesses) && InDomain(l, Lengths)
  }

  /** A fully specified sound: well formed, with every field present. */
  predicate Concrete(s: Sound) {
    && WellFormed(s)
    && s.ipar.Some?
    && match s
       case Consonant(p, m, v, _, g) => p.Some? && m.Some? && v.Some? && g.Some?
       case Vowel(h, b, r, l, _) => h.Some? && b.Some? && r.Some? && l.Some?
  }

  /** The symbol of a concrete sound. */
  function Symbol(s: Sound): string
    requires Concrete(s)
  {
    s.ipar.value
  }

  // ---------------------------------------------------------------------------
  // Construction with validation

  /** `AbstractConsonant(...)`: every feature may be absent; a present place or
      manner outside its enumeration raises ValueError. */
  function NewAbstractConsonant(place: Option<string>, manner: Option<string>, voiced: Option<bool>,
                                ipar: Option<string>, geminate: Option<bool>): (r: Result<Sound>)
    ensures r.Ok? <==> InDomain(place, Places) && InDomain(manner, Manners)
    ensures r.Err? ==> r.error == ValueError
    ensures r.Ok? ==> WellFormed(r.value) && r.value.Consonant?
    ensures r.Ok? ==> r.value.place == place && r.value.manner == manner && r.value.voiced == voiced
                      && r.value.ipar == ipar && r.value.geminate == geminate
  {
    if !InDomain(place, Places) then Err(ValueError)
    else if !InDomain(manner, Manners) then Err(ValueError)
    else Ok(Consonant(place, manner, voiced, ipar, geminate))
  }

  /** `Consonant(...)`: every field must be present (AssertionError otherwise),
      then the abstract validation applies. */
  function NewConsonant(place: Option<string>, manner: Option<string>, voiced: Option<bool>,
                        ipar: Option<string>, geminate: Option<bool>): (r: Result<Sound>)
    ensures r.Ok? <==> && place.Some? && manner.Some? && voiced.Some? && ipar.Some? && geminate.Some?
                       && place.value in Places && manner.value in Manners
    ensures (place.None? || manner.None? || voiced.None? || ipar.None? || geminate.None?) ==> r == Err(AssertionError)
    ensures r.Ok? ==> Concrete(r.value) && r.value == Consonant(place, manner, voiced, ipar, geminate)
  {
    if place.None? || manner.None? || voiced.None? || ipar.None? || geminate.None? then Err(AssertionError)
    else NewAbstractConsonant(place, manner, voiced, ipar, geminate)
  }

  /** `AbstractVowel(...)`: every feature may be absent; a present height,
      backness or length outside its enumeration raises ValueError. */
  function NewAbstractVowel(height: Option<string>, backness: Option<string>, rounded: Option<bool>,
                            length: Option<string>, ipar: Option<string>): (r: Result<Sound>)
    ensures r.Ok? <==> InDomain(height, Heights) && InDomain(backness, Backnesses) && InDomain(length, Lengths)
    ensures r.Err? ==> r.error == ValueError
    ensures r.Ok? ==> WellFormed(r.value) && r.value.Vowel?
    ensures r.Ok? ==> r.value.height == height && r.value.backness == backness && r.value.rounded == rounded
                      && r.value.length == length && r.value.ipar == ipar
  {
    if !InDomain(height, Heights) then Err(ValueError)
    else if !InDomain(backness, Backnesses) then Err(ValueError)
    else if !InDomain(length, Lengths) then Err(ValueError)
    else Ok(Vowel(height, backness, rounded, length, ipar))
  }

  /** `Vowel(...)`: every field must be present (AssertionError otherwise),
      then the abstract validation applies. */
  function NewVowel(height: Option<string>, backness: Option<string>, rounded: Option<bool>,
                    length: Option<string>, ipar: Option<string>): (r: Result<Sound>)
    ensures r.Ok? <==> && height.Some? && backness.Some? && rounded.Some? && length.Some? && ipar.Some?
                       && height.value in Heights && backness.value in Backnesses && length.value in Lengths
    ensures (height.None? || backness.None? || rounded.None? || length.None? || ipar.None?) ==> r == Err(AssertionError)
    ensures r.Ok? ==> Concrete(r.value) && r.value == Vowel(height, backness, rounded, length, ipar)
  {
    if height.None? || backness.None? || rounded.None? || length.None? || ipar.None? then Err(AssertionError)
    else NewAbstractVowel(height, backness, rounded, length, ipar)
  }

  // ---------------------------------------------------------------------------
  // Matching against a pattern

  /** A pattern feature accepts an actual one when it is absent or equal. */
  predicate Agrees<T(==)>(pattern: Option<T>, actual: Option<T>) {
    pattern.None? || pattern == actual
  }

  /** `Consonant.match` / `Vowel.match`: a concrete sound against an optional
      pattern. No pattern matches everything; a pattern of the other kind
      matches nothing; otherwise every feature the pattern specifies must equal
      the sound's. The symbol is never compared. */
  function Match(s: Sound, p: Option<Sound>): (r: bool)
    requires Concrete(s)
    ensures p.None? ==> r
    ensures p.Some? && s.Consonant? != p.value.Consonant? ==> !r
  {
    match p
    case None => true
    case Some(q) =>
      if s.Consonant? && q.Consonant? then
        Agrees(q.place, s.place) && Agrees(q.manner, s.manner) && Agrees(q.voiced, s.voiced)
        && Agrees(q.geminate, s.geminate)
      else if s.Vowel? && q.Vowel? then
        Agrees(q.height, s.height) && Agrees(q.backness, s.backness) && Agrees(q.rounded, s.rounded)
        && Agrees(q.length, s.length)
      else false
  }

  /** `general` is of the same kind as `special` and leaves open at least what
      `special` leaves open, agreeing with it elsewhere (symbols aside). */
  predicate Subsumes(general: Sound, special: Sound) {
    match (general, special)
    case (Consonant(p, m, v, _, g), Consonant(p', m', v', _, g')) =>
      Agrees(p, p') && Agrees(m, m') && Agrees(v, v') && Agrees(g, g')
    case (Vowel(h, b, r, l, _), Vowel(h', b', r', l', _)) =>
      Agrees(h, h') && Agrees(b, b') && Agrees(r, r') && Agrees(l, l')
    case _ => false
  }

  /** A feature, or nothing when `drop` says so. */
  function Drop<T>(f: Option<T>, drop: bool): Option<T> {
    if drop then None else f
  }

  /** The pattern made from `s` by leaving out the features whose flag is set
      (place, manner, voiced, geminate for a consonant; height, backness,
      rounded, length for a vowel) and giving it the symbol `sym`. */
  function Wildcard(s: Sound, drop1: bool, drop2: bool, drop3: bool, drop4: bool, sym: Option<string>): Sound {
    match s
    case Consonant(p, m, v, _, g) => Consonant(Drop(p, drop1), Drop(m, drop2), Drop(v, drop3), sym, Drop(g, drop4))
    case Vowel(h, b, r, l, _) => Vowel(Drop(h, drop1), Drop(b, drop2), Drop(r, drop3), Drop(l, drop4), sym)
  }

  /** A pattern of the sound's kind that gives any feature a value other than
      the sound's does not match it. */
  lemma MatchRejectsConflict(s: Sound, q: Sound)
    requires Concrete(s)
    ensures s.Consonant? && q.Consonant?
            && (|| (q.place.Some? && q.place != s.place) || (q.manner.Some? && q.manner != s.manner)
                || (q.voiced.Some? && q.voiced != s.voiced) || (q.geminate.Some? && q.geminate != s.geminate))
            ==> !Match(s, Some(q))
    ensures s.Vowel? && q.Vowel?
            && (|| (q.height.Some? && q.height != s.height) || (q.backness.Some? && q.backness != s.backness)
                || (q.rounded.Some? && q.rounded != s.rounded) || (q.length.Some? && q.length != s.length))
            ==> !Match(s, Some(q))
  {
  }

  /** A sound matches every pattern made from it by leaving features out, and
      only those: the patterns a sound matches are exactly its wildcards. */
  lemma MatchIsWildcard(s: Sound, q: Sound, drop1: bool, drop2: bool, drop3: bool, drop4: bool, sym: Option<string>)
    requires Concrete(s)
    ensures Match(s, Some(Wildcard(s, drop1, drop2, drop3, drop4, sym)))
    ensures Match(s, Some(q)) && q.Consonant? ==>
              q == Wildcard(s, q.place.None?, q.manner.None?, q.voiced.None?, q.geminate.None?, q.ipar)
    ensures Match(s, Some(q)) && q.Vowel? ==>
              q == Wildcard(s, q.height.None?, q.backness.None?, q.rounded.None?, q.length.None?, q.ipar)
  {
  }

  /** Every concrete sound matches itself used as a pattern. */
  lemma MatchSelf(s: Sound)
    requires Concrete(s)
    ensures Match(s, Some(s))
  {
  }

  /** Making a pattern more general never loses a match. */
  lemma MatchGeneralize(s: Sound, p: Sound, p': Sound)
    requires Concrete(s)
    requires Subsumes(p', p)
    requires Match(s, Some(p))
    ensures Match(s, Some(p'))
  {
  }

  /** The symbols of the sound and of the pattern play no part in matching. */
  lemma MatchIgnoresSymbols(s: Sound, q: Sound, x: string, y: string)
    requires Concrete(s)
    ensures Concrete(s.(ipar := Some(x)))
    ensures Match(s.(ipar := Some(x)), Some(q.(ipar := Some(y)))) == Match(s, Some(q))
  {
  }

  /** Between concrete sounds matching is symmetric: both hold exactly when the
      two sounds have the same kind and the same features. */
  lemma ConcreteMatchSymmetric(s: Sound, t: Sound)
    requires Concrete(s) && Concrete(t)
    ensures Match(s, Some(t)) <==> Match(t, Some(s))
    ensures Match(s, Some(t)) <==> s.(ipar := t.ipar) == t
  {
  }

  // ---------------------------------------------------------------------------
  // Lengthening

  /** `lengthen`: a new sound. A consonant becomes geminate and gains a ':' in
      its symbol unless it already was geminate. A short vowel becomes long and
      gains a ':'; any other vowel becomes short with its symbol unchanged. */
  function Lengthen(s: Sound): (r: Sound)
    requires Concrete(s)
    ensures Concrete(r) && r.Consonant? == s.Consonant?
    ensures Symbol(s) <= Symbol(r) && |Symbol(r)| <= |Symbol(s)| + 1
    ensures s.Consonant? ==> r.geminate == Some(true) && r.(geminate := s.geminate, ipar := s.ipar) == s
    ensures s.Vowel? ==> r.length != s.length && r.(length := s.length, ipar := s.ipar) == s
    ensures s.Consonant? ==> Symbol(r) == if s.geminate == Some(true) then Symbol(s) else Symbol(s) + ":"
    ensures s.Vowel? && s.length == Some("short") ==> r.length == Some("long") && Symbol(r) == Symbol(s) + ":"
    ensures s.Vowel? && s.length != Some("short") ==> r.length == Some("short") && Symbol(r) == Symbol(s)
  {
    match s
    case Consonant(p, m, v, sym, g) =>
      Consonant(p, m, v, if g.value then sym else Some(sym.value + ":"), Some(true))
    case Vowel(h, b, rd, l, sym) =>
      if l == Some("short") then Vowel(h, b, rd, Some("long"), Some(sym.value + ":"))
      else Vowel(h, b, rd, Some("short"), sym)
  }

  /** The constructor that `lengthen` calls accepts the lengthened features, so
      lengthening never raises. */
  lemma LengthenConstructs(s: Sound)
    requires Concrete(s)
    ensures var r := Lengthen(s);
            match r
            case Consonant(p, m, v, sym, g) => NewConsonant(p, m, v, sym, g) == Ok(r)
            case Vowel(h, b, rd, l, sym) => NewVowel(h, b, rd, l, sym) == Ok(r)
  {
  }

  /** A consonant gains exactly one ':' the first time and none after. */
  lemma ConsonantLengthenSymbol(s: Sound)
    requires Concrete(s) && s.Consonant?
    ensures Symbol(Lengthen(s)) == if s.geminate == Some(true) then Symbol(s) else Symbol(s) + ":"
  {
  }

  /** Lengthening a consonant twice is lengthening it once. */
  lemma ConsonantLengthenIdempotent(s: Sound)
    requires Concrete(s) && s.Consonant?
    ensures Lengthen(Lengthen(s)) == Lengthen(s)
  {
  }

  /** Vowel lengthening is not idempotent: lengthening a short vowel twice
      gives back a short vowel, whose symbol now ends in ':'. */
  lemma VowelLengthenTwice(s: Sound)
    requires Concrete(s) && s.Vowel? && s.length == Some("short")
    ensures Lengthen(s).length == Some("long") && Symbol(Lengthen(s)) == Symbol(s) + ":"
    ensures Lengthen(Lengthen(s)) == Vowel(s.height, s.backness, s.rounded, s.length, Some(Symbol(s) + ":"))
    ensures Lengthen(Lengthen(s)) != Lengthen(s)
  {
  }

  /** A long or overlong vowel is shortened, keeping its symbol. */
  lemma VowelLengthenShortens(s: Sound)
    requires Concrete(s) && s.Vowel? && s.length != Some("short")
    ensures Lengthen(s) == s.(length := Some("short"))
  {
  }
}
