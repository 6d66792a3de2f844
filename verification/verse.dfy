/** Verse structures of Old Norse poetry: meter recognition by counting lines,
    the regrouping of short lines into long lines (Fornyrðislag in pairs,
    Ljóðaháttr in a 2/1/2/1 pattern), and the syllabified and transcribed
    views of a stanza. The word tokenizer, the syllabifier and the phrase
    transcriber are parameters of the operations that call them. */
module VerseStructure {
  import opened Wrappers
  import opened SeqUtil

  // ---------------------------------------------------------------------------
  // Splitting a text into lines

  /** `s.split("\n")`: the pieces between newlines, always at least one. */
  function Lines(s: string): (r: seq<string>)
    ensures |r| >= 1
    ensures forall k :: 0 <= k < |r| ==> '\n' !in r[k]
    decreases |s|
  {
    if |s| == 0 then [""]
    else if s[0] == '\n' then [""] + Lines(s[1..])
    else
      var t := Lines(s[1..]);
      [[s[0]] + t[0]] + t[1..]
  }

  /** `"\n".join(ls)`. */
  function JoinLines(ls: seq<string>): string
    requires |ls| >= 1
  {
    if |ls| == 1 then ls[0] else ls[0] + "\n" + JoinLines(ls[1..])
  }

  /** Splitting then joining gives the text back. */
  lemma {:induction false} JoinLinesOfLines(s: string)
    ensures JoinLines(Lines(s)) == s
    decreases |s|
  {
    if |s| > 0 {
      var t := Lines(s[1..]);
      JoinLinesOfLines(s[1..]);
      if s[0] == '\n' {
        assert ([""] + t)[1..] == t;
        assert s == [s[0]] + s[1..];
      } else if |t| == 1 {
        assert s == [s[0]] + s[1..];
      } else {
        var r := [[s[0]] + t[0]] + t[1..];
        assert r[1..] == t[1..];
        assert s == [s[0]] + s[1..];
      }
    }
  }

  /** A line without newline followed by more text: the line starts the first piece. */
  lemma {:induction false} LinesOfPrefix(a: string, rest: string)
    requires '\n' !in a
    ensures Lines(a + rest) == [a + Lines(rest)[0]] + Lines(rest)[1..]
    decreases |a|
  {
    if |a| > 0 {
      assert (a + rest)[0] == a[0];
      assert (a + rest)[1..] == a[1..] + rest;
      LinesOfPrefix(a[1..], rest);
      var l, t := Lines(rest), Lines(a[1..] + rest);
      assert a[0] in a;
      assert t[0] == a[1..] + l[0] && t[1..] == l[1..];
      assert [a[0]] + (a[1..] + l[0]) == a + l[0];
    } else {
      var l := Lines(rest);
      assert a + rest == rest;
      assert a + l[0] == l[0];
      assert l == [l[0]] + l[1..];
    }
  }

  /** Joining lines that hold no newline, then splitting, gives the lines back. */
  lemma {:induction false} LinesOfJoinLines(ls: seq<string>)
    requires |ls| >= 1
    requires forall k :: 0 <= k < |ls| ==> '\n' !in ls[k]
    ensures Lines(JoinLines(ls)) == ls
    decreases |ls|
  {
    if |ls| == 1 {
      LinesOfPrefix(ls[0], "");
      assert ls[0] + "" == ls[0];
    } else {
      LinesOfJoinLines(ls[1..]);
      var rest := JoinLines(ls[1..]);
      assert Lines("\n" + rest) == [""] + Lines(rest) by {
        assert ("\n" + rest)[1..] == rest;
      }
      LinesOfPrefix(ls[0], "\n" + rest);
      assert ls[0] + "\n" + rest == ls[0] + ("\n" + rest);
      assert ls[0] + "" == ls[0];
      assert ls == [ls[0]] + ls[1..];
    }
  }

  /** The text with its newlines removed. */
  function DropNewlines(s: string): (r: string)
    ensures '\n' !in r
    decreases |s|
  {
    if |s| == 0 then ""
    else (if s[0] == '\n' then "" else [s[0]]) + DropNewlines(s[1..])
  }

  /** The lines hold every other character of the text, in order. */
  lemma {:induction false} FlattenLines(s: string)
    ensures Flatten(Lines(s)) == DropNewlines(s)
    decreases |s|
  {
    if |s| > 0 {
      var t := Lines(s[1..]);
      FlattenLines(s[1..]);
      if s[0] == '\n' {
        FlattenCons("", t);
      } else {
        FlattenCons([s[0]] + t[0], t[1..]);
        FlattenCons(t[0], t[1..]);
        assert t == [t[0]] + t[1..];
      }
    }
  }

  /** The members of `ls` that are not empty, in order. */
  function NonEmpty(ls: seq<string>): (r: seq<string>)
    ensures |r| <= |ls|
    ensures forall k :: 0 <= k < |r| ==> r[k] != ""
    ensures forall k :: 0 <= k < |r| ==> r[k] in ls
  {
    if |ls| == 0 then []
    else (if ls[0] == "" then [] else [ls[0]]) + NonEmpty(ls[1..])
  }

  /** Dropping empty strings does not change the concatenation. */
  lemma {:induction false} FlattenNonEmpty(ls: seq<string>)
    ensures Flatten(NonEmpty(ls)) == Flatten(ls)
  {
    if |ls| > 0 {
      FlattenNonEmpty(ls[1..]);
      assert ls == [ls[0]] + ls[1..];
      FlattenCons(ls[0], ls[1..]);
      if ls[0] == "" {
        assert [] + NonEmpty(ls[1..]) == NonEmpty(ls[1..]);
      } else {
        FlattenCons(ls[0], NonEmpty(ls[1..]));
      }
    }
  }

  /** Nothing is dropped from lines that are all non-empty. */
  lemma {:induction false} NonEmptyOfNonEmpty(ls: seq<string>)
    requires forall k :: 0 <= k < |ls| ==> ls[k] != ""
    ensures NonEmpty(ls) == ls
  {
    if |ls| > 0 {
      NonEmptyOfNonEmpty(ls[1..]);
      assert ls == [ls[0]] + ls[1..];
    }
  }

  /** `[line for line in text.split("\n") if line != ""]`. */
  function NonEmptyLines(text: string): (r: seq<string>)
    ensures |r| <= |Lines(text)|
    ensures forall k :: 0 <= k < |r| ==> r[k] != "" && '\n' !in r[k]
  {
    NonEmpty(Lines(text))
  }

  /** The short lines of a text: non-empty, newline-free, and together they
      hold exactly the text's characters other than newlines, in order. */
  lemma ShortLinesCoverText(text: string)
    ensures forall k :: 0 <= k < |NonEmptyLines(text)| ==>
              NonEmptyLines(text)[k] != "" && '\n' !in NonEmptyLines(text)[k]
    ensures Flatten(NonEmptyLines(text)) == DropNewlines(text)
  {
    FlattenNonEmpty(Lines(text));
    FlattenLines(text);
  }

  // ---------------------------------------------------------------------------
  // Meters

  /** `VerseManager.is_fornyrdhislag`: eight non-empty lines, so the text
      splits into at least eight lines. */
  function IsFornyrdhislag(text: string): (r: bool)
    ensures r ==> |Lines(text)| >= 8
  {
    |NonEmptyLines(text)| == 8
  }

  /** `VerseManager.is_ljoodhhaattr`: six non-empty lines; never also Fornyrðislag. */
  function IsLjoodhhaattr(text: string): (r: bool)
    ensures r ==> !IsFornyrdhislag(text)
  {
    |NonEmptyLines(text)| == 6
  }

  /** A stanza written as newline-free lines, blank ones allowed, is Fornyrðislag
      exactly when eight of its lines are not blank, and Ljóðaháttr exactly when
      six are. */
  lemma MeterOfStanza(ls: seq<string>)
    requires |ls| >= 1
    requires forall k :: 0 <= k < |ls| ==> '\n' !in ls[k]
    ensures IsFornyrdhislag(JoinLines(ls)) <==> |NonEmpty(ls)| == 8
    ensures IsLjoodhhaattr(JoinLines(ls)) <==> |NonEmpty(ls)| == 6
  {
    LinesOfJoinLines(ls);
  }

  /** Hávamál 77, the example stanza of Ljóðaháttr. */
  lemma ExampleHavamal77()
    ensures IsLjoodhhaattr(JoinLines(["Deyr fé,", "deyja frændr,", "deyr sjalfr it sama,",
                                      "ek veit einn,", "at aldrei deyr:", "dómr um dauðan hvern."]))
  {
    var ls := ["Deyr fé,", "deyja frændr,", "deyr sjalfr it sama,",
               "ek veit einn,", "at aldrei deyr:", "dómr um dauðan hvern."];
    MeterOfStanza(ls);
    NonEmptyOfNonEmpty(ls);
  }

  // ---------------------------------------------------------------------------
  // Long lines

  /** `[sl[2*i:2*i+2] for i in range(floor(len(sl)/2))]`. */
  function PairUp(sl: seq<string>): (r: seq<seq<string>>)
    ensures |r| == |sl| / 2
    ensures forall i :: 0 <= i < |r| ==> r[i] == [sl[2 * i], sl[2 * i + 1]]
  {
    seq(|sl| / 2, i requires 0 <= i < |sl| / 2 => sl[2 * i..2 * i + 2])
  }

  lemma {:induction false} FlattenPairUpPrefix(sl: seq<string>, k: nat)
    requires k <= |sl| / 2
    ensures Flatten(PairUp(sl)[..k]) == sl[..2 * k]
  {
    if k > 0 {
      FlattenPairUpPrefix(sl, k - 1);
      var p := PairUp(sl);
      assert p[..k][..k - 1] == p[..k - 1];
      assert sl[..2 * k] == sl[..2 * (k - 1)] + [sl[2 * k - 2], sl[2 * k - 1]];
    }
  }

  /** The long lines of a Fornyrðislag stanza are its short lines in order,
      except an odd last one, which is dropped. */
  lemma FlattenPairUp(sl: seq<string>)
    ensures Flatten(PairUp(sl)) == sl[..|sl| - |sl| % 2]
  {
    FlattenPairUpPrefix(sl, |sl| / 2);
    assert PairUp(sl)[..|sl| / 2] == PairUp(sl);
  }

  /** `[sl[0:2], [sl[2]], sl[3:5], [sl[5]]]`: an index error below six lines. */
  function LjoodhhaattrGroups(sl: seq<string>): (r: Result<seq<seq<string>>>)
    ensures r.Err? <==> |sl| < 6
    ensures r.Err? ==> r.error == IndexError
    ensures r.Ok? ==> |r.value| == 4 && |r.value[0]| == 2 && |r.value[1]| == 1
                      && |r.value[2]| == 2 && |r.value[3]| == 1
  {
    if |sl| < 6 then Err(IndexError)
    else Ok([sl[0..2], [sl[2]], sl[3..5], [sl[5]]])
  }

  /** The long lines of a Ljóðaháttr stanza are its first six short lines in
      order; later lines are ignored. */
  lemma FlattenLjoodhhaattrGroups(sl: seq<string>)
    requires 6 <= |sl|
    ensures Flatten(LjoodhhaattrGroups(sl).value) == sl[..6]
  {
    var g := LjoodhhaattrGroups(sl).value;
    FlattenCons(g[0], g[1..]);
    FlattenCons(g[1], g[2..]);
    FlattenCons(g[2], g[3..]);
    FlattenCons(g[3], g[4..]);
    assert g == [g[0]] + g[1..] && g[1..] == [g[1]] + g[2..] && g[2..] == [g[2]] + g[3..];
    assert g[3..] == [g[3]] + g[4..] && g[4..] == [];
    assert sl[..6] == g[0] + g[1] + g[2] + g[3];
  }

  // ---------------------------------------------------------------------------
  // Token clean-up

  /** The characters removed from each token before syllabification. */
  predicate IsStripped(c: char) {
    c in {',', '.', ';', '!', '?', '-', ':'}
  }

  /** The seven `replace` calls: the token without those characters. */
  function StripPunctuation(w: string): (r: string)
    ensures |r| <= |w|
    ensures forall k :: 0 <= k < |r| ==> !IsStripped(r[k])
    decreases |w|
  {
    if |w| == 0 then ""
    else (if IsStripped(w[0]) then "" else [w[0]]) + StripPunctuation(w[1..])
  }

  /** Stripping keeps every other character, in order: a clean token is kept whole. */
  lemma {:induction false} StripPunctuationKeepsClean(w: string)
    requires forall k :: 0 <= k < |w| ==> !IsStripped(w[k])
    ensures StripPunctuation(w) == w
    decreases |w|
  {
    if |w| > 0 {
      StripPunctuationKeepsClean(w[1..]);
      assert w == [w[0]] + w[1..];
    }
  }

  /** Stripping distributes over concatenation. */
  lemma {:induction false} StripPunctuationAppend(a: string, b: string)
    ensures StripPunctuation(a + b) == StripPunctuation(a) + StripPunctuation(b)
    decreases |a|
  {
    if |a| == 0 {
      assert a + b == b;
    } else {
      assert (a + b)[0] == a[0];
      assert (a + b)[1..] == a[1..] + b;
      StripPunctuationAppend(a[1..], b);
    }
  }

  /** `str.lower` on one character, for Basic Latin, Latin-1 and the two
      Old Norse capitals outside Latin-1 (Ǫ and Œ). */
  function LowerChar(c: char): (r: char)
    ensures IsStripped(r) <==> IsStripped(c)
  {
    if 'A' <= c <= 'Z' then (c as int + 32) as char
    else if 'À' <= c <= 'Þ' && c != '×' then (c as int + 32) as char
    else if c == 'Ǫ' then 'ǫ'
    else if c == 'Œ' then 'œ'
    else c
  }

  /** Lowercasing twice is lowercasing once. */
  lemma LowerCharIdempotent(c: char)
    ensures LowerChar(LowerChar(c)) == LowerChar(c)
  {
  }

  function Lower(w: string): (r: string)
    ensures |r| == |w|
    ensures forall k :: 0 <= k < |w| ==> r[k] == LowerChar(w[k])
  {
    seq(|w|, k requires 0 <= k < |w| => LowerChar(w[k]))
  }

  /** The tokens that survive clean-up, stripped and lowercased, in order. */
  function CleanTokens(tokens: seq<string>): (r: seq<string>)
    ensures |r| <= |tokens|
    ensures forall k :: 0 <= k < |r| ==> r[k] != ""
    ensures forall k :: 0 <= k < |r| ==> forall m :: 0 <= m < |r[k]| ==> !IsStripped(r[k][m])
  {
    if |tokens| == 0 then []
    else
      var w := StripPunctuation(tokens[|tokens| - 1]);
      CleanTokens(tokens[..|tokens| - 1]) + (if w == "" then [] else [Lower(w)])
  }

  /** Dropping empty strings distributes over concatenation. */
  lemma {:induction false} NonEmptyAppend(a: seq<string>, b: seq<string>)
    ensures NonEmpty(a + b) == NonEmpty(a) + NonEmpty(b)
    decreases |a|
  {
    if |a| > 0 {
      assert (a + b)[1..] == a[1..] + b;
      NonEmptyAppend(a[1..], b);
    } else {
      assert a + b == b;
    }
  }

  /** Clean-up works token by token: each token is stripped of punctuation
      and lowercased on its own, and the tokens left empty are dropped, so no
      two tokens are ever merged and their order is kept. */
  lemma {:induction false} CleanTokensPerToken(tokens: seq<string>)
    ensures CleanTokens(tokens) == NonEmpty(seq(|tokens|, k requires 0 <= k < |tokens| => Lower(StripPunctuation(tokens[k]))))
    decreases |tokens|
  {
    var cleaned := seq(|tokens|, k requires 0 <= k < |tokens| => Lower(StripPunctuation(tokens[k])));
    if |tokens| > 0 {
      var init := tokens[..|tokens| - 1];
      var w := StripPunctuation(tokens[|tokens| - 1]);
      CleanTokensPerToken(init);
      var cleanedInit := seq(|init|, k requires 0 <= k < |init| => Lower(StripPunctuation(init[k])));
      assert cleaned == cleanedInit + [Lower(w)];
      NonEmptyAppend(cleanedInit, [Lower(w)]);
      assert [Lower(w)][1..] == [];
      assert Lower(w) == "" <==> w == "";
    } else {
      assert cleaned == [];
    }
  }

  /** The cleaned tokens together hold the tokens' characters, punctuation
      removed and lowercased, in order: clean-up loses no letter. */
  lemma {:induction false} FlattenCleanTokens(tokens: seq<string>)
    ensures Flatten(CleanTokens(tokens)) == Lower(StripPunctuation(Flatten(tokens)))
  {
    if |tokens| > 0 {
      var init, last := tokens[..|tokens| - 1], tokens[|tokens| - 1];
      FlattenCleanTokens(init);
      var w := StripPunctuation(last);
      StripPunctuationAppend(Flatten(init), last);
      var pre := StripPunctuation(Flatten(init));
      assert Flatten(tokens) == Flatten(init) + last;
      assert Lower(pre + w) == Lower(pre) + Lower(w);
      if w == "" {
        assert CleanTokens(tokens) == CleanTokens(init) + [];
        assert pre + w == pre;
        assert CleanTokens(init) + [] == CleanTokens(init);
      } else {
        FlattenSnoc(CleanTokens(init), Lower(w));
      }
    }
  }

  // ---------------------------------------------------------------------------
  // Syllabified and transcribed views

  /** A syllabified word: its syllables. */
  type Syllables = seq<string>

  /** What `syllabify` stores for one short line: a one-element list wrapping
      the syllabified words of the line. */
  type SyllabifiedShortLine = seq<seq<Syllables>>

  /** The syllabified words of one short line. */
  function WordsOf(shortLine: string, tokenize: string -> seq<string>, syllabify: string -> Syllables): (r: seq<Syllables>)
    ensures |r| == |CleanTokens(tokenize(shortLine))|
    ensures forall k :: 0 <= k < |r| ==> r[k] == syllabify(CleanTokens(tokenize(shortLine))[k])
  {
    var ws := CleanTokens(tokenize(shortLine));
    seq(|ws|, k requires 0 <= k < |ws| => syllabify(ws[k]))
  }

  /** The value of `syllabified_text` for the long lines. */
  function Syllabified(longLines: seq<seq<string>>, tokenize: string -> seq<string>, syllabify: string -> Syllables)
    : (r: seq<seq<SyllabifiedShortLine>>)
    ensures |r| == |longLines|
    ensures forall i :: 0 <= i < |r| ==> |r[i]| == |longLines[i]|
    ensures forall i, j :: 0 <= i < |r| && 0 <= j < |r[i]| ==>
              r[i][j] == [WordsOf(longLines[i][j], tokenize, syllabify)]
  {
    seq(|longLines|, i requires 0 <= i < |longLines| =>
      seq(|longLines[i]|, j requires 0 <= j < |longLines[i]| => [WordsOf(longLines[i][j], tokenize, syllabify)]))
  }

  /** The three nested loops of `Verse.syllabify`, on a non-empty text. */
  method SyllabifyLines(longLines: seq<seq<string>>, tokenize: string -> seq<string>, syllabify: string -> Syllables)
    returns (st: seq<seq<SyllabifiedShortLine>>)
    ensures st == Syllabified(longLines, tokenize, syllabify)
  {
    st := [];
    for i := 0 to |longLines|
      invariant |st| == i
      invariant forall a :: 0 <= a < i ==> st[a] == Syllabified(longLines, tokenize, syllabify)[a]
    {
      var line := longLines[i];
      var lineResult: seq<SyllabifiedShortLine> := [];
      for j := 0 to |line|
        invariant |lineResult| == j
        invariant forall b :: 0 <= b < j ==> lineResult[b] == [WordsOf(line[b], tokenize, syllabify)]
      {
        var tokens := tokenize(line[j]);
        var words: seq<Syllables> := [];
        for t := 0 to |tokens|
          invariant |words| == |CleanTokens(tokens[..t])|
          invariant forall m :: 0 <= m < |words| ==> words[m] == syllabify(CleanTokens(tokens[..t])[m])
        {
          assert tokens[..t + 1][..t] == tokens[..t];
          var word := StripPunctuation(tokens[t]);
          if word != "" {
            words := words + [syllabify(Lower(word))];
          }
        }
        assert tokens[..|tokens|] == tokens;
        assert words == WordsOf(line[j], tokenize, syllabify);
        lineResult := lineResult + [[words]];
      }
      st := st + [lineResult];
    }
  }

  /** The value `to_phonetics` gives `transcribed_text`: one transcription per
      short line, grouped by long line. */
  function Transcribed(longLines: seq<seq<string>>, transcribe: string -> string): (r: seq<seq<string>>)
    ensures |r| == |longLines|
    ensures forall i :: 0 <= i < |r| ==> |r[i]| == |longLines[i]|
    ensures forall i, j :: 0 <= i < |r| && 0 <= j < |r[i]| ==> r[i][j] == transcribe(longLines[i][j])
  {
    seq(|longLines|, i requires 0 <= i < |longLines| =>
      seq(|longLines[i]|, j requires 0 <= j < |longLines[i]| => transcribe(longLines[i][j])))
  }

  /** The two nested loops of `Verse.to_phonetics`, on a non-empty text. */
  method TranscribeLines(longLines: seq<seq<string>>, transcribe: string -> string) returns (tt: seq<seq<string>>)
    ensures tt == Transcribed(longLines, transcribe)
  {
    tt := [];
    for i := 0 to |longLines|
      invariant |tt| == i
      invariant forall a :: 0 <= a < i ==> tt[a] == Transcribed(longLines, transcribe)[a]
    {
      var lineResult: seq<string> := [];
      for j := 0 to |longLines[i]|
        invariant |lineResult| == j
        invariant forall b :: 0 <= b < j ==> lineResult[b] == transcribe(longLines[i][b])
      {
        lineResult := lineResult + [transcribe(longLines[i][j])];
      }
      tt := tt + [lineResult];
    }
  }

  // ---------------------------------------------------------------------------
  // The two verse forms

  /** A Fornyrðislag stanza: short lines grouped two by two. */
  class Fornyrdhislag {
    var text: string
    var shortLines: seq<string>
    var longLines: seq<seq<string>>
    var syllabifiedText: seq<seq<SyllabifiedShortLine>>
    var transcribedText: seq<seq<string>>

    constructor()
      ensures text == "" && shortLines == [] && longLines == []
      ensures syllabifiedText == [] && transcribedText == []
    {
      text := "";
      shortLines := [];
      longLines := [];
      syllabifiedText := [];
      transcribedText := [];
    }

    /** Keeps the text, its non-empty lines, and those lines in pairs. */
    method FromShortLinesText(t: string)
      modifies this
      ensures text == t && shortLines == NonEmptyLines(t) && longLines == PairUp(shortLines)
      ensures syllabifiedText == old(syllabifiedText) && transcribedText == old(transcribedText)
    {
      text := t;
      shortLines := NonEmptyLines(t);
      longLines := PairUp(shortLines);
    }

    /** With no long lines the syllabified text is emptied; otherwise it is
        rebuilt from the long lines. */
    method Syllabify(tokenize: string -> seq<string>, syllabify: string -> Syllables)
      modifies this
      ensures syllabifiedText == Syllabified(longLines, tokenize, syllabify)
      ensures text == old(text) && shortLines == old(shortLines) && longLines == old(longLines)
      ensures transcribedText == old(transcribedText)
    {
      if |longLines| == 0 {
        syllabifiedText := [];
      } else {
        syllabifiedText := SyllabifyLines(longLines, tokenize, syllabify);
      }
    }

    /** With no long lines the syllabified text (not the transcribed one) is
        emptied; otherwise the transcribed text is rebuilt from the long lines. */
    method ToPhonetics(transcribe: string -> string)
      modifies this
      ensures |longLines| == 0 ==> syllabifiedText == [] && transcribedText == old(transcribedText)
      ensures |longLines| != 0 ==>
                transcribedText == Transcribed(longLines, transcribe) && syllabifiedText == old(syllabifiedText)
      ensures text == old(text) && shortLines == old(shortLines) && longLines == old(longLines)
    {
      if |longLines| == 0 {
        syllabifiedText := [];
      } else {
        transcribedText := TranscribeLines(longLines, transcribe);
      }
    }
  }

  /** A Ljóðaháttr stanza: six short lines grouped two, one, two, one. */
  class Ljoodhhaatr {
    var text: string
    var shortLines: seq<string>
    var longLines: seq<seq<string>>
    var syllabifiedText: seq<seq<SyllabifiedShortLine>>
    var transcribedText: seq<seq<string>>

    constructor()
      ensures text == "" && shortLines == [] && longLines == []
      ensures syllabifiedText == [] && transcribedText == []
    {
      text := "";
      shortLines := [];
      longLines := [];
      syllabifiedText := [];
      transcribedText := [];
    }

    /** Keeps the text and its non-empty lines; with fewer than six lines the
        grouping fails with an index error and the long lines stay as they were. */
    method FromShortLinesText(t: string) returns (error: Option<PyError>)
      modifies this
      ensures text == t && shortLines == NonEmptyLines(t)
      ensures error.Some? <==> |shortLines| < 6
      ensures error.Some? ==> error.value == IndexError && longLines == old(longLines)
      ensures error.None? ==> Ok(longLines) == LjoodhhaattrGroups(shortLines)
      ensures syllabifiedText == old(syllabifiedText) && transcribedText == old(transcribedText)
    {
      text := t;
      shortLines := NonEmptyLines(t);
      var groups := LjoodhhaattrGroups(shortLines);
      if groups.Err? {
        return Some(groups.error);
      }
      longLines := groups.value;
      return None;
    }

    /** As `Fornyrdhislag.Syllabify`. */
    method Syllabify(tokenize: string -> seq<string>, syllabify: string -> Syllables)
      modifies this
      ensures syllabifiedText == Syllabified(longLines, tokenize, syllabify)
      ensures text == old(text) && shortLines == old(shortLines) && longLines == old(longLines)
      ensures transcribedText == old(transcribedText)
    {
      if |longLines| == 0 {
        syllabifiedText := [];
      } else {
        syllabifiedText := SyllabifyLines(longLines, tokenize, syllabify);
      }
    }

    /** As `Fornyrdhislag.ToPhonetics`. */
    method ToPhonetics(transcribe: string -> string)
      modifies this
      ensures |longLines| == 0 ==> syllabifiedText == [] && transcribedText == old(transcribedText)
      ensures |longLines| != 0 ==>
                transcribedText == Transcribed(longLines, transcribe) && syllabifiedText == old(syllabifiedText)
      ensures text == old(text) && shortLines == old(shortLines) && longLines == old(longLines)
    {
      if |longLines| == 0 {
        syllabifiedText := [];
      } else {
        transcribedText := TranscribeLines(longLines, transcribe);
      }
    }
  }
}
