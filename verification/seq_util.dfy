/** Small sequence helpers shared by the modules: flattening a sequence of
    sequences, and its behaviour under concatenation. */
module SeqUtil {

  /** The concatenation of all members of `ss`, in order (Python's `"".join`
      on strings, or `sum(lists, [])` on lists). */
  function Flatten<T>(ss: seq<seq<T>>): seq<T>
  {
    if |ss| == 0 then [] else Flatten(ss[..|ss| - 1]) + ss[|ss| - 1]
  }

  /** Concatenation is associative. */
  lemma AppendAssoc<T>(a: seq<T>, b: seq<T>, c: seq<T>)
    ensures (a + b) + c == a + (b + c)
  {
  }

  /** Every member of a flattened sequence comes from one of its parts. */
  lemma {:induction false} FlattenMembers<T>(ss: seq<seq<T>>)
    ensures forall x :: x in Flatten(ss) ==> exists j :: 0 <= j < |ss| && x in ss[j]
    decreases |ss|
  {
    if |ss| > 0 {
      var init := ss[..|ss| - 1];
      FlattenMembers(init);
      forall x | x in Flatten(ss)
        ensures exists j :: 0 <= j < |ss| && x in ss[j]
      {
        if x in Flatten(init) {
          var j :| 0 <= j < |init| && x in init[j];
          assert ss[j] == init[j];
        } else {
          assert x in ss[|ss| - 1];
        }
      }
    }
  }

  /** Flattening distributes over concatenation. */
  lemma {:induction false} FlattenAppend<T>(a: seq<seq<T>>, b: seq<seq<T>>)
    ensures Flatten(a + b) == Flatten(a) + Flatten(b)
    decreases |b|
  {
    if |b| == 0 {
      assert a + b == a;
    } else {
      calc {
        Flatten(a + b);
        { assert (a + b)[..|a + b| - 1] == a + b[..|b| - 1]; }
        Flatten(a + b[..|b| - 1]) + b[|b| - 1];
        { FlattenAppend(a, b[..|b| - 1]); }
        Flatten(a) + Flatten(b[..|b| - 1]) + b[|b| - 1];
      }
    }
  }

  /** Flattening a sequence with one more member appends that member. */
  lemma FlattenSnoc<T>(a: seq<seq<T>>, x: seq<T>)
    ensures Flatten(a + [x]) == Flatten(a) + x
  {
    assert (a + [x])[..|a|] == a;
  }

  /** Flattening a sequence with one more member in front prepends it. */
  lemma FlattenCons<T>(x: seq<T>, a: seq<seq<T>>)
    ensures Flatten([x] + a) == x + Flatten(a)
  {
    FlattenAppend([x], a);
    assert Flatten([x]) == Flatten([x][..0]) + x;
  }

  /** The total length of a flattened sequence is the sum of the lengths. */
  lemma {:induction false} FlattenLengthBound<T>(ss: seq<seq<T>>, bound: nat)
    requires forall k :: 0 <= k < |ss| ==> |ss[k]| <= bound
    ensures |Flatten(ss)| <= bound * |ss|
  {
    if |ss| > 0 {
      FlattenLengthBound(ss[..|ss| - 1], bound);
    }
  }
}
