/** Order-preserving selection over sequences: the shape of every Python loop
    in the converter that `continue`s past unusable items, and of the
    first-seen de-duplication of a list. */
module Filter {
  import opened Base

  /** The values of the `Some` entries of `s`, in their original order. */
  function Somes<T>(s: seq<Option<T>>): (r: seq<T>)
    ensures |r| <= |s|
  {
    if |s| == 0 then []
    else (match s[0] case Some(v) => [v] case None => []) + Somes(s[1..])
  }

  /** A value is selected exactly when some entry is `Some` of it. */
  lemma {:induction false} SomesMembers<T>(s: seq<Option<T>>)
    ensures forall i | 0 <= i < |s| && s[i].Some? :: s[i].value in Somes(s)
    ensures forall x | x in Somes(s) :: Some(x) in s
  {
    if |s| > 0 {
      SomesMembers(s[1..]);
      assert forall i | 1 <= i < |s| :: s[i] == s[1..][i - 1];
    }
  }

  /** How many entries of `s` are `Some`: the value of a counter bumped once
      per kept item. */
  function CountSome<T>(s: seq<Option<T>>): nat {
    if |s| == 0 then 0 else (if s[0].Some? then 1 else 0) + CountSome(s[1..])
  }

  /** Where the kept entry `s[i]` lands in `Somes(s)`. */
  function Rank<T>(s: seq<Option<T>>, i: int): nat
    requires 0 <= i <= |s|
  {
    |Somes(s[..i])|
  }

  lemma {:induction false} SomesAppend<T>(a: seq<Option<T>>, b: seq<Option<T>>)
    ensures Somes(a + b) == Somes(a) + Somes(b)
  {
    if |a| > 0 {
      assert (a + b)[1..] == a[1..] + b;
      SomesAppend(a[1..], b);
    } else {
      assert a + b == b;
    }
  }

  /** The counter and the kept list agree. */
  lemma {:induction false} SomesLength<T>(s: seq<Option<T>>)
    ensures |Somes(s)| == CountSome(s)
  {
    if |s| > 0 {
      SomesLength(s[1..]);
    }
  }

  /** A kept entry appears in the output at its rank. */
  lemma SomesAt<T>(s: seq<Option<T>>, i: int)
    requires 0 <= i < |s| && s[i].Some?
    ensures Rank(s, i) < |Somes(s)|
    ensures Somes(s)[Rank(s, i)] == s[i].value
  {
    assert s == s[..i] + ([s[i]] + s[i + 1..]);
    SomesAppend(s[..i], [s[i]] + s[i + 1..]);
    SomesAppend([s[i]], s[i + 1..]);
  }

  /** Kept entries keep their relative order. */
  lemma RankIncreasing<T>(s: seq<Option<T>>, i: int, j: int)
    requires 0 <= i < j <= |s| && s[i].Some?
    ensures Rank(s, i) < Rank(s, j)
  {
    assert s[..j] == s[..i] + ([s[i]] + s[i + 1..j]);
    SomesAppend(s[..i], [s[i]] + s[i + 1..j]);
    SomesAppend([s[i]], s[i + 1..j]);
  }

  /** When nothing is dropped, selection is just unwrapping. */
  lemma {:induction false} SomesOfAllSome<T>(s: seq<Option<T>>)
    requires forall i | 0 <= i < |s| :: s[i].Some?
    ensures Somes(s) == seq(|s|, i requires 0 <= i < |s| => s[i].value)
  {
    if |s| > 0 {
      SomesOfAllSome(s[1..]);
    }
  }

  predicate NoDup<T(==)>(s: seq<T>) {
    forall i, j | 0 <= i < j < |s| :: s[i] != s[j]
  }

  /** The distinct elements of `s`, each at its first occurrence. */
  function Dedup<T(==,!new)>(s: seq<T>): (r: seq<T>)
    ensures NoDup(r)
    ensures forall x :: x in r <==> x in s
  {
    if |s| == 0 then []
    else
      var d := Dedup(s[..|s| - 1]);
      assert forall x :: x in s <==> x in s[..|s| - 1] || x == s[|s| - 1] by {
        assert s == s[..|s| - 1] + [s[|s| - 1]];
      }
      if s[|s| - 1] in d then d else d + [s[|s| - 1]]
  }

  /** A duplicate-free sequence is as long as the set of its elements is large. */
  lemma {:induction false} NoDupCardinality<T>(s: seq<T>)
    requires NoDup(s)
    ensures |s| == |set x | x in s|
  {
    if |s| > 0 {
      var t := s[1..];
      NoDupCardinality(t);
      assert (set x | x in s) == (set x | x in t) + {s[0]};
      assert s[0] !in t;
    }
  }

  /** `Somes(s)` is exactly the `Some` entries of `s` in order: entry `i`,
      if kept, is output number `Rank(s, i)`, ranks increase along `s`, and
      there are as many outputs as kept entries, so every output comes from
      one kept entry. */
  lemma {:induction false} SelectionInOrder<T>(s: seq<Option<T>>)
    ensures forall i | 0 <= i < |s| && s[i].Some? :: Rank(s, i) < |Somes(s)| && Somes(s)[Rank(s, i)] == s[i].value
    ensures forall i, j | 0 <= i < j <= |s| && s[i].Some? :: Rank(s, i) < Rank(s, j)
    ensures |Somes(s)| == CountSome(s)
  {
    forall i | 0 <= i < |s| && s[i].Some?
      ensures Rank(s, i) < |Somes(s)| && Somes(s)[Rank(s, i)] == s[i].value
    {
      SomesAt(s, i);
    }
    forall i, j | 0 <= i < j <= |s| && s[i].Some? ensures Rank(s, i) < Rank(s, j) {
      RankIncreasing(s, i, j);
    }
    SomesLength(s);
  }
}
