/** The letter classes of Old Norse used by its syllabifier: the sonority
    hierarchy of letters (most sonorous tier first), the vowels and their
    length classes, the diphthongs, the consonants, the onsets a syllable may
    not begin with, and the sonority hierarchy of IPA symbols. Each table of
    one-letter strings is the set of those letters. */
module SonorityTables {
  import opened Wrappers

  /** The sonority hierarchy: vowels, then j, m, n, the stops, the
      fricatives (with c), r and l. */
  const Hierarchy: seq<set<char>> :=
    [{'a', 'á', 'æ', 'e', 'é', 'i', 'í', 'o', 'ǫ', 'ø', 'ö', 'œ', 'ó', 'u', 'ú', 'y', 'ý'},
     {'j'}, {'m'}, {'n'}, {'p', 'b', 'd', 'g', 't', 'k'},
     {'c', 'f', 's', 'h', 'v', 'x', 'z', 'þ', 'ð'}, {'r'}, {'l'}]

  const Vowels: set<char> := {'a', 'e', 'i', 'o', 'ǫ', 'ö', 'ø', 'u', 'y', 'á', 'æ', 'œ', 'é', 'í', 'ó', 'ú', 'ý'}
  const LongVowels: set<char> := {'ö', 'ø', 'á', 'æ', 'œ', 'é', 'í', 'ó', 'ú', 'ý'}
  const ShortVowels: set<char> := {'a', 'e', 'i', 'o', 'u', 'y', 'ǫ'}
  const Diphthongs: seq<string> := ["ey", "au", "ei"]
  const Consonants: set<char> :=
    {'b', 'd', 'f', 'g', 'h', 'j', 'k', 'l', 'm', 'n', 'p', 'r', 's', 't', 'v', 'x', 'z', 'þ', 'ð'}
  const InvalidOnsets: seq<string> := ["lm", "fj", "nm", "rk", "nn", "tt", "ðr"]

  const IpaVowels: set<char> := {'a', 'ɛ', 'i', 'ɔ', 'ɒ', 'ø', 'u', 'y', 'œ', 'e', 'o', 'j'}
  const IpaHierarchy: seq<set<char>> :=
    [IpaVowels, {'r'}, {'l'}, {'m', 'n'}, {'f', 'v', 'θ', 'ð', 's', 'h'}, {'b', 'd', 'g', 'k', 'p', 't'}]

  /** No letter lies in two tiers. */
  predicate TiersDisjoint(tiers: seq<set<char>>)
  {
    forall t, u :: 0 <= t < u < |tiers| ==> tiers[t] !! tiers[u]
  }

  /** The first tier from `t` on that holds `c`. */
  function RankFrom(tiers: seq<set<char>>, c: char, t: nat): (r: Option<nat>)
    requires t <= |tiers|
    ensures r.Some? ==> t <= r.value < |tiers| && c in tiers[r.value]
    ensures r.Some? ==> forall u :: t <= u < r.value ==> c !in tiers[u]
    ensures r.None? ==> forall u :: t <= u < |tiers| ==> c !in tiers[u]
    decreases |tiers| - t
  {
    if t == |tiers| then None
    else if c in tiers[t] then Some(t)
    else RankFrom(tiers, c, t + 1)
  }

  /** The sonority rank of a letter in a hierarchy: the index of its tier,
      0 being the most sonorous; none for a letter outside every tier. */
  function Rank(tiers: seq<set<char>>, c: char): (r: Option<nat>)
    ensures r.Some? ==> r.value < |tiers| && c in tiers[r.value]
    ensures r.None? <==> forall u :: 0 <= u < |tiers| ==> c !in tiers[u]
  {
    RankFrom(tiers, c, 0)
  }

  /** In a hierarchy whose tiers are disjoint, a letter's rank is its tier. */
  lemma RankOfTier(tiers: seq<set<char>>, c: char, t: nat)
    requires TiersDisjoint(tiers)
    requires t < |tiers| && c in tiers[t]
    ensures Rank(tiers, c) == Some(t)
  {
  }

  /** The most sonorous tier holds exactly the vowels. */
  lemma VowelTier()
    ensures Hierarchy[0] == Vowels
  {
  }

  /** The letters of tiers 1 to 7 are the consonants and "c", which is not a
      consonant. */
  lemma ConsonantTiers()
    ensures Consonants + {'c'} == Hierarchy[1] + Hierarchy[2] + Hierarchy[3] + Hierarchy[4] + Hierarchy[5] + Hierarchy[6] + Hierarchy[7]
    ensures 'c' !in Consonants
  {
  }

  /** Vowels are neither consonants nor "c". */
  lemma VowelsAreNotConsonants()
    ensures Vowels !! Consonants + {'c'}
  {
  }

  /** The tiers 1 to 7 are pairwise disjoint. */
  lemma ConsonantTiersDisjoint()
    ensures forall t, u :: 1 <= t < u < |Hierarchy| ==> Hierarchy[t] !! Hierarchy[u]
  {
    assert Hierarchy[4] !! Hierarchy[5];
  }

  /** The tiers of the letter hierarchy are pairwise disjoint. */
  lemma HierarchyDisjoint()
    ensures TiersDisjoint(Hierarchy)
  {
    VowelTier();
    VowelsAreNotConsonants();
    ConsonantTiers();
    ConsonantTiersDisjoint();
    forall u | 1 <= u < |Hierarchy|
      ensures Hierarchy[u] <= Consonants + {'c'}
    {
    }
  }

  /** Vowels have sonority rank 0, consonants a rank from 1 to 7, and a
      letter outside both classes other than "c" has no rank. */
  lemma SonorityRanks(c: char)
    ensures c in Vowels <==> Rank(Hierarchy, c) == Some(0)
    ensures c in Consonants ==> Rank(Hierarchy, c).Some? && 1 <= Rank(Hierarchy, c).value
    ensures Rank(Hierarchy, c).None? <==> c !in Vowels && c !in Consonants && c != 'c'
  {
    HierarchyDisjoint();
    VowelTier();
    ConsonantTiers();
    if c in Vowels {
      RankOfTier(Hierarchy, c, 0);
    }
  }

  /** The long and the short vowels split the vowels. */
  lemma VowelLengthClasses()
    ensures LongVowels !! ShortVowels
    ensures LongVowels + ShortVowels == Vowels
  {
  }

  /** Every forbidden onset is two consonants. */
  lemma OnsetsAreConsonantPairs()
    ensures forall k :: 0 <= k < |InvalidOnsets| ==>
              |InvalidOnsets[k]| == 2 && InvalidOnsets[k][0] in Consonants && InvalidOnsets[k][1] in Consonants
  {
  }

  /** Every diphthong is two vowels. */
  lemma DiphthongsAreVowelPairs()
    ensures forall k :: 0 <= k < |Diphthongs| ==>
              |Diphthongs[k]| == 2 && Diphthongs[k][0] in Vowels && Diphthongs[k][1] in Vowels
  {
  }

  /** No IPA vowel lies in another IPA tier. */
  lemma IpaVowelTierApart()
    ensures forall u :: 1 <= u < |IpaHierarchy| ==> IpaVowels !! IpaHierarchy[u]
  {
  }

  /** The IPA tiers after the first are pairwise disjoint. */
  lemma IpaConsonantTiersDisjoint()
    ensures forall t, u :: 1 <= t < u < |IpaHierarchy| ==> IpaHierarchy[t] !! IpaHierarchy[u]
  {
    assert IpaHierarchy[4] !! IpaHierarchy[5];
  }

  /** The IPA tiers are pairwise disjoint, and the most sonorous one is the
      IPA vowels. */
  lemma IpaHierarchyDisjoint()
    ensures TiersDisjoint(IpaHierarchy)
    ensures IpaHierarchy[0] == IpaVowels
  {
    IpaVowelTierApart();
    IpaConsonantTiersDisjoint();
  }

  /** The IPA vowels are exactly the symbols of IPA sonority rank 0. */
  lemma IpaVowelRank(c: char)
    ensures c in IpaVowels <==> Rank(IpaHierarchy, c) == Some(0)
  {
    IpaHierarchyDisjoint();
    if c in IpaVowels {
      RankOfTier(IpaHierarchy, c, 0);
    }
  }
}
