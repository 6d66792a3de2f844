/** The prosody step of the processing pipeline: a document's words are
    grouped into verses at the newlines of its raw text, then a scanner is
    applied to each verse. The scanner is a parameter. */
module ProsodyProcess {
  import opened SeqUtil

  /** A word of a document: where it starts in the raw text, and its text. */
  datatype Word = Word(indexCharStart: int, str: string)

  /** A document: its raw text, its words, and the two fields this step fills. */
  datatype Doc<R> = Doc(raw: string, words: seq<Word>, verses: seq<seq<Word>>, prosodyResult: seq<R>)

  /** The text of each word, in order. */
  function WordTexts(words: seq<Word>): (r: seq<string>)
    ensures |r| == |words|
    ensures forall k :: 0 <= k < |r| ==> r[k] == words[k].str
  {
    if |words| == 0 then [] else WordTexts(words[..|words| - 1]) + [words[|words| - 1].str]
  }

  /** The offsets of the newlines of `raw` from offset `from` on, in order. */
  function NewlinesFrom(raw: string, from: nat): (r: seq<nat>)
    requires from <= |raw|
    ensures forall k :: 0 <= k < |r| ==> from <= r[k] < |raw| && raw[r[k]] == '\n'
    ensures forall k, m :: 0 <= k < m < |r| ==> r[k] < r[m]
    ensures forall p :: from <= p < |raw| && raw[p] == '\n' ==> p in r
    decreases |raw| - from
  {
    if from == |raw| then []
    else (if raw[from] == '\n' then [from] else []) + NewlinesFrom(raw, from + 1)
  }

  /** The start offsets of the matches of the separator pattern: every newline
      of the raw text, and nothing else, in increasing order. */
  function NewlinePositions(raw: string): (r: seq<nat>)
    ensures forall k :: 0 <= k < |r| ==> r[k] < |raw| && raw[r[k]] == '\n'
    ensures forall k, m :: 0 <= k < m < |r| ==> r[k] < r[m]
    ensures forall p :: 0 <= p < |raw| && raw[p] == '\n' ==> p in r
  {
    NewlinesFrom(raw, 0)
  }

  /** Where the run of words from `from` that start before `bound` ends: at
      the last word, or at the first word that does not start before `bound`. */
  function RunEnd(words: seq<Word>, from: nat, bound: int): (e: nat)
    requires from <= |words|
    ensures from <= e <= |words|
    ensures forall k :: from <= k < e ==> words[k].indexCharStart < bound
    ensures e < |words| ==> words[e].indexCharStart >= bound
    decreases |words| - from
  {
    if from == |words| || words[from].indexCharStart >= bound then from
    else RunEnd(words, from + 1, bound)
  }

  /** The number of words held by a sequence of verses. */
  function Consumed(verses: seq<seq<Word>>): nat
  {
    |Flatten(verses)|
  }

  /** The verses built from word `from` on: each takes the maximal run of
      remaining words that start before its newline. */
  function VersesFrom(words: seq<Word>, from: nat, vi: seq<nat>): (r: seq<seq<Word>>)
    requires from <= |words|
    ensures |r| == |vi|
    decreases |vi|
  {
    if |vi| == 0 then []
    else
      var e := RunEnd(words, from, vi[0]);
      [words[from..e]] + VersesFrom(words, e, vi[1..])
  }

  /** The verses of `compute_verses`: verse h takes, from where verse h - 1
      stopped, the maximal run of words that start before the h-th newline. */
  function Verses(words: seq<Word>, vi: seq<nat>): (r: seq<seq<Word>>)
    ensures |r| == |vi|
  {
    VersesFrom(words, 0, vi)
  }

  /** The word index where the verses built from word `from` on stop. */
  function VersesEnd(words: seq<Word>, from: nat, vi: seq<nat>): (e: nat)
    requires from <= |words|
    ensures from <= e <= |words|
    decreases |vi|
  {
    if |vi| == 0 then from else VersesEnd(words, RunEnd(words, from, vi[0]), vi[1..])
  }

  /** The verses from word `from` on hold the words from `from` to where
      they stop, in order, each once. */
  lemma {:induction false} VersesFromPrefix(words: seq<Word>, from: nat, vi: seq<nat>)
    requires from <= |words|
    ensures Flatten(VersesFrom(words, from, vi)) == words[from..VersesEnd(words, from, vi)]
    decreases |vi|
  {
    if |vi| > 0 {
      var e := RunEnd(words, from, vi[0]);
      var rest := VersesFrom(words, e, vi[1..]);
      var stop := VersesEnd(words, e, vi[1..]);
      calc {
        Flatten(VersesFrom(words, from, vi));
        Flatten([words[from..e]] + rest);
        { FlattenCons(words[from..e], rest); }
        words[from..e] + Flatten(rest);
        { VersesFromPrefix(words, e, vi[1..]); }
        words[from..e] + words[e..stop];
        words[from..stop];
      }
    }
  }

  /** Every word of verse h starts before newline h. */
  lemma {:induction false} VersesFromBefore(words: seq<Word>, from: nat, vi: seq<nat>)
    requires from <= |words|
    ensures forall h, k :: 0 <= h < |vi| && 0 <= k < |VersesFrom(words, from, vi)[h]| ==>
              VersesFrom(words, from, vi)[h][k].indexCharStart < vi[h]
    decreases |vi|
  {
    if |vi| > 0 {
      var r: seq<seq<Word>> := VersesFrom(words, from, vi);
      var e := RunEnd(words, from, vi[0]);
      var rest := VersesFrom(words, e, vi[1..]);
      VersesFromBefore(words, e, vi[1..]);
      assert r == [words[from..e]] + rest;
      forall h: int, k: int | 0 < h < |r| && 0 <= k < |r[h]|
        ensures r[h][k].indexCharStart < vi[h]
      {
        assert r[h] == rest[h - 1] && vi[h] == vi[1..][h - 1];
        assert rest[h - 1][k].indexCharStart < vi[1..][h - 1];
      }
    }
  }

  /** The first n verses are the verses of the first n newlines. */
  lemma {:induction false} VersesFromTake(words: seq<Word>, from: nat, vi: seq<nat>, n: nat)
    requires from <= |words| && n <= |vi|
    ensures VersesFrom(words, from, vi)[..n] == VersesFrom(words, from, vi[..n])
    decreases n
  {
    if n > 0 {
      var next := RunEnd(words, from, vi[0]);
      VersesFromTake(words, next, vi[1..], n - 1);
      assert vi[..n][0] == vi[0] && vi[..n][1..] == vi[1..][..n - 1];
      assert VersesFrom(words, from, vi)[..n] == [words[from..next]] + VersesFrom(words, next, vi[1..])[..n - 1];
    }
  }

  /** The word right after verse h, if any, does not start before newline h. */
  lemma {:induction false} VersesFromBoundary(words: seq<Word>, from: nat, vi: seq<nat>)
    requires from <= |words|
    ensures forall h :: 0 <= h < |vi| && VersesEnd(words, from, vi[..h + 1]) < |words| ==>
              words[VersesEnd(words, from, vi[..h + 1])].indexCharStart >= vi[h]
    decreases |vi|
  {
    if |vi| > 0 {
      var next := RunEnd(words, from, vi[0]);
      VersesFromBoundary(words, next, vi[1..]);
      forall h | 0 <= h < |vi| && VersesEnd(words, from, vi[..h + 1]) < |words|
        ensures words[VersesEnd(words, from, vi[..h + 1])].indexCharStart >= vi[h]
      {
        assert vi[..h + 1][0] == vi[0];
        if h == 0 {
          assert vi[..1][1..] == [];
        } else {
          var g := h - 1;
          assert vi[..h + 1][1..] == vi[1..][..g + 1];
          assert vi[h] == vi[1..][g];
        }
      }
    }
  }

  /** There is one verse per newline; the verses hold a prefix of the words,
      in order, each word once; every word of verse h starts before newline h;
      and the word after verse h, if any, does not. */
  lemma VersesProperties(words: seq<Word>, vi: seq<nat>)
    ensures |Verses(words, vi)| == |vi|
    ensures Consumed(Verses(words, vi)) <= |words| && Flatten(Verses(words, vi)) == words[..Consumed(Verses(words, vi))]
    ensures forall h, k :: 0 <= h < |vi| && 0 <= k < |Verses(words, vi)[h]| ==> Verses(words, vi)[h][k].indexCharStart < vi[h]
    ensures forall h :: 0 <= h < |vi| && Consumed(Verses(words, vi)[..h + 1]) < |words| ==>
              words[Consumed(Verses(words, vi)[..h + 1])].indexCharStart >= vi[h]
  {
    VersesFromPrefix(words, 0, vi);
    assert words[0..VersesEnd(words, 0, vi)] == words[..VersesEnd(words, 0, vi)];
    VersesFromBefore(words, 0, vi);
    VersesFromBoundary(words, 0, vi);
    forall n | 1 <= n <= |vi|
      ensures Consumed(Verses(words, vi)[..n]) == VersesEnd(words, 0, vi[..n])
    {
      VersesFromTake(words, 0, vi, n);
      VersesFromPrefix(words, 0, vi[..n]);
    }
  }

  /** With increasing newline offsets, every word the verses from `from`
      on take starts before the last newline. */
  lemma {:induction false} VersesFromBeforeLast(words: seq<Word>, from: nat, vi: seq<nat>, last: int)
    requires from <= |words|
    requires forall h :: 0 <= h < |vi| ==> vi[h] <= last
    ensures forall k :: from <= k < VersesEnd(words, from, vi) ==> words[k].indexCharStart < last
    decreases |vi|
  {
    if |vi| > 0 {
      var e := RunEnd(words, from, vi[0]);
      VersesFromBeforeLast(words, e, vi[1..], last);
    }
  }

  /** Words that start after the last newline belong to no verse: every word
      the verses hold starts before it, and the verses hold exactly the first
      `Consumed` words. */
  lemma VersesBeforeLastNewline(words: seq<Word>, vi: seq<nat>)
    requires |vi| > 0
    requires forall k, m :: 0 <= k < m < |vi| ==> vi[k] < vi[m]
    ensures Consumed(Verses(words, vi)) <= |words|
    ensures forall k :: 0 <= k < Consumed(Verses(words, vi)) ==> words[k].indexCharStart < vi[|vi| - 1]
  {
    VersesFromPrefix(words, 0, vi);
    VersesFromBeforeLast(words, 0, vi, vi[|vi| - 1]);
  }

  /** One round of the outer loop: the run of words from `start` that start
      before newline `h`, stopping at the end or at a word that does not, is
      the next verse. */
  lemma VersesStep(words: seq<Word>, vi: seq<nat>, h: nat, start: nat, i: nat)
    requires h < |vi| && start <= i <= |words|
    requires forall k :: start <= k < i ==> words[k].indexCharStart < vi[h]
    requires i < |words| ==> words[i].indexCharStart >= vi[h]
    ensures VersesFrom(words, start, vi[h..]) == [words[start..i]] + VersesFrom(words, i, vi[h + 1..])
  {
    assert vi[h..][0] == vi[h] && vi[h..][1..] == vi[h + 1..];
  }

  /** The outer loop's invariant survives one round: the verses built so far
      followed by the remaining verses are all the verses. */
  lemma VersesStepInvariant(words: seq<Word>, vi: seq<nat>, h: nat, start: nat, i: nat, done: seq<seq<Word>>)
    requires h < |vi| && start <= i <= |words|
    requires forall k :: start <= k < i ==> words[k].indexCharStart < vi[h]
    requires i < |words| ==> words[i].indexCharStart >= vi[h]
    requires done + VersesFrom(words, start, vi[h..]) == Verses(words, vi)
    ensures (done + [words[start..i]]) + VersesFrom(words, i, vi[h + 1..]) == Verses(words, vi)
  {
    VersesStep(words, vi, h, start, i);
    AppendAssoc(done, [words[start..i]], VersesFrom(words, i, vi[h + 1..]));
  }

  /** The inner loop of `compute_verses`: from word `start`, collect the
      words that start before `bound`, up to the first that does not. The
      loop bound is the number of tokens, which is the number of words. */
  method CollectVerse<R>(doc: Doc<R>, start: nat, bound: int) returns (group: seq<Word>, i: nat)
    requires start <= |doc.words|
    ensures start <= i <= |doc.words| && group == doc.words[start..i]
    ensures forall k :: start <= k < i ==> doc.words[k].indexCharStart < bound
    ensures i < |doc.words| ==> doc.words[i].indexCharStart >= bound
  {
    group := [];
    i := start;
    var tokens := WordTexts(doc.words);
    while i < |tokens|
      invariant start <= i <= |doc.words|
      invariant group == doc.words[start..i]
      invariant forall k :: start <= k < i ==> doc.words[k].indexCharStart < bound
    {
      if doc.words[i].indexCharStart < bound {
        group := group + [doc.words[i]];
        i := i + 1;
      } else {
        break;
      }
    }
  }

  /** `ProsodyProcess.compute_verses`, with its two counters `h` (the verse)
      and `i` (the word). */
  method ComputeVerses<R>(doc: Doc<R>) returns (res: seq<seq<Word>>)
    ensures res == Verses(doc.words, NewlinePositions(doc.raw))
  {
    var verseIndices := NewlinePositions(doc.raw);
    var h := 0;
    var i := 0;
    res := [];
    assert verseIndices[0..] == verseIndices;
    while h < |verseIndices|
      invariant h <= |verseIndices| && i <= |doc.words|
      invariant res + VersesFrom(doc.words, i, verseIndices[h..]) == Verses(doc.words, verseIndices)
    {
      var group, next := CollectVerse(doc, i, verseIndices[h]);
      VersesStepInvariant(doc.words, verseIndices, h, i, next, res);
      res := res + [group];
      i := next;
      h := h + 1;
    }
    assert res + [] == res;
  }

  /** When the words are in text order, every word of verse h starts at or
      after newline h - 1: the verses are the words between newlines. */
  lemma {:induction false} VersesFromBetweenNewlines(words: seq<Word>, from: nat, vi: seq<nat>)
    requires from <= |words|
    requires forall k, m :: 0 <= k < m < |words| ==> words[k].indexCharStart <= words[m].indexCharStart
    ensures forall h, k :: 0 < h < |vi| && 0 <= k < |VersesFrom(words, from, vi)[h]| ==>
              vi[h - 1] <= VersesFrom(words, from, vi)[h][k].indexCharStart
    decreases |vi|
  {
    if |vi| > 1 {
      var r: seq<seq<Word>> := VersesFrom(words, from, vi);
      var next := RunEnd(words, from, vi[0]);
      var rest := VersesFrom(words, next, vi[1..]);
      VersesFromBetweenNewlines(words, next, vi[1..]);
      assert r == [words[from..next]] + rest;
      var second := words[next..RunEnd(words, next, vi[1])];
      assert rest[0] == second;
      if |second| > 0 {
        forall k | 0 <= k < |second| ensures vi[0] <= second[k].indexCharStart {
          assert second[k] == words[next + k];
        }
      }
      forall h: int, k: int | 1 < h < |vi| && 0 <= k < |r[h]|
        ensures vi[h - 1] <= r[h][k].indexCharStart
      {
        assert r[h] == rest[h - 1] && vi[h - 1] == vi[1..][h - 2];
      }
    }
  }

  lemma VersesBetweenNewlines(words: seq<Word>, vi: seq<nat>)
    requires forall k, m :: 0 <= k < m < |words| ==> words[k].indexCharStart <= words[m].indexCharStart
    ensures forall h, k :: 0 < h < |vi| && 0 <= k < |Verses(words, vi)[h]| ==>
              vi[h - 1] <= Verses(words, vi)[h][k].indexCharStart
  {
    VersesFromBetweenNewlines(words, 0, vi);
  }

  /** `ProsodyProcess.run`: a copy of the document with its verses computed
      and one scanner result per verse, in verse order. */
  method Run<R>(input: Doc<R>, scanner: seq<Word> -> R) returns (output: Doc<R>)
    ensures output.raw == input.raw && output.words == input.words
    ensures output.verses == Verses(input.words, NewlinePositions(input.raw))
    ensures |output.prosodyResult| == |output.verses|
    ensures forall k :: 0 <= k < |output.verses| ==> output.prosodyResult[k] == scanner(output.verses[k])
  {
    output := input;
    var verses := ComputeVerses(output);
    output := output.(verses := verses);
    var result: seq<R> := [];
    for k := 0 to |output.verses|
      invariant |result| == k
      invariant forall m :: 0 <= m < k ==> result[m] == scanner(output.verses[m])
    {
      result := result + [scanner(output.verses[k])];
    }
    output := output.(prosodyResult := result);
  }
}
