/** First occurrences: the order in which a walk meets new elements. */
module Distinct {

  /** The distinct elements of `s`, in order of first occurrence. */
  function Dedup<T(==)>(s: seq<T>): seq<T>
    decreases |s|
  {
    if s == [] then []
    else
      var d := Dedup(s[..|s| - 1]);
      if s[|s| - 1] in d then d else d + [s[|s| - 1]]
  }

  lemma {:induction false} DedupNone<T(!new)>()
    ensures Dedup<T>([]) == []
  {
  }

  lemma {:induction false} DedupMembers<T(!new)>(s: seq<T>)
    ensures forall x :: x in Dedup(s) <==> x in s
    ensures forall i, j :: 0 <= i < j < |Dedup(s)| ==> Dedup(s)[i] != Dedup(s)[j]
    decreases |s|
  {
    if s != [] {
      DedupMembers(s[..|s| - 1]);
      assert s == s[..|s| - 1] + [s[|s| - 1]];
    }
  }

  lemma {:induction false} DedupSnoc<T(!new)>(s: seq<T>, x: T)
    ensures Dedup(s + [x]) == if x in s then Dedup(s) else Dedup(s) + [x]
  {
    assert (s + [x])[..|s|] == s;
    DedupMembers(s);
  }

  /** Walking on only adds elements behind the ones already met. */
  lemma {:induction false} DedupPrefix<T(!new)>(s: seq<T>, t: seq<T>)
    ensures Dedup(s) <= Dedup(s + t)
    decreases |t|
  {
    hide Dedup;
    if t == [] {
      assert s + t == s;
    } else {
      var n := |t| - 1;
      DedupPrefix(s, t[..n]);
      DedupSnoc(s + t[..n], t[n]);
      assert s + t == s + t[..n] + [t[n]];
    }
  }

  /** Elements met before do not matter. */
  lemma {:induction false} DedupKnown<T(!new)>(s: seq<T>, t: seq<T>)
    requires forall x :: x in t ==> x in s
    ensures Dedup(s + t) == Dedup(s)
    decreases |t|
  {
    hide Dedup;
    if t == [] {
      assert s + t == s;
    } else {
      var n := |t| - 1;
      DedupKnown(s, t[..n]);
      DedupSnoc(s + t[..n], t[n]);
      assert s + t == s + t[..n] + [t[n]];
    }
  }

  /** What comes next depends on the walk so far only through its distinct elements. */
  lemma {:induction false} DedupSameTail<T(!new)>(a: seq<T>, b: seq<T>, t: seq<T>)
    requires Dedup(a) == Dedup(b)
    ensures Dedup(a + t) == Dedup(b + t)
    decreases |t|
  {
    hide Dedup;
    if t == [] {
      assert a + t == a && b + t == b;
    } else {
      var n := |t| - 1;
      DedupSameTail(a, b, t[..n]);
      DedupSnoc(a + t[..n], t[n]);
      DedupSnoc(b + t[..n], t[n]);
      assert a + t == a + t[..n] + [t[n]] && b + t == b + t[..n] + [t[n]];
      DedupMembers(a + t[..n]);
      DedupMembers(b + t[..n]);
    }
  }

  lemma {:induction false} DedupCount<T(!new)>(s: seq<T>)
    ensures |Dedup(s)| == |set x | x in s|
    decreases |s|
  {
    if s == [] {
      assert (set x | x in s) == {};
    } else {
      var n := |s| - 1;
      DedupCount(s[..n]);
      DedupMembers(s[..n]);
      assert s == s[..n] + [s[n]];
      var before := set x | x in s[..n];
      assert (set x | x in s) == before + {s[n]};
      if s[n] in s[..n] {
        assert before + {s[n]} == before;
      }
    }
  }
}
