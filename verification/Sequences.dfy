/** Sequence facts shared by the models: first occurrences and concatenation. */
module Sequences {

  /** The keys of a sequence. */
  function Keys<T, K>(key: T -> K, s: seq<T>): set<K> {
    set i | 0 <= i < |s| :: key(s[i])
  }

  /** Keeps, of the entries that share a key, only the first. */
  function DistinctBy<T, K(==)>(key: T -> K, s: seq<T>): seq<T> {
    if s == [] then []
    else
      var rest := DistinctBy(key, s[..|s| - 1]);
      if key(s[|s| - 1]) in Keys(key, s[..|s| - 1]) then rest else rest + [s[|s| - 1]]
  }

  ghost predicate NoRepeats<T, K>(key: T -> K, s: seq<T>) {
    forall i, j | 0 <= i < j < |s| :: key(s[i]) != key(s[j])
  }

  /** What one more entry adds: the step of every "append unless seen" loop. */
  lemma DistinctStep<T, K>(key: T -> K, s: seq<T>, x: T)
    ensures DistinctBy(key, s + [x]) ==
            if key(x) in Keys(key, s) then DistinctBy(key, s) else DistinctBy(key, s) + [x]
    ensures Keys(key, s + [x]) == Keys(key, s) + {key(x)}
  {
    assert (s + [x])[..|s + [x]| - 1] == s;
    var t := s + [x];
    assert t[|s|] == x;
    forall k ensures k in Keys(key, t) <==> k in Keys(key, s) + {key(x)} {
      if k in Keys(key, s) {
        var i :| 0 <= i < |s| && key(s[i]) == k;
        assert key(t[i]) == k;
      }
    }
  }

  lemma KeysOfAppend<T, K>(key: T -> K, s: seq<T>, x: T)
    ensures Keys(key, s + [x]) == Keys(key, s) + {key(x)}
  {
    DistinctStep(key, s, x);
  }

  /** First occurrences lose no key and invent no entry. */
  lemma {:induction false} DistinctKeys<T, K>(key: T -> K, s: seq<T>)
    ensures Keys(key, DistinctBy(key, s)) == Keys(key, s)
    ensures forall x | x in DistinctBy(key, s) :: x in s
  {
    if s != [] {
      var p, x := s[..|s| - 1], s[|s| - 1];
      assert s == p + [x];
      DistinctKeys(key, p);
      DistinctStep(key, p, x);
      KeysOfAppend(key, DistinctBy(key, p), x);
    }
  }

  /** First occurrences repeat no key. */
  lemma {:induction false} DistinctNoRepeats<T, K>(key: T -> K, s: seq<T>)
    ensures NoRepeats(key, DistinctBy(key, s))
  {
    if s != [] {
      var p, x := s[..|s| - 1], s[|s| - 1];
      assert s == p + [x];
      DistinctNoRepeats(key, p);
      DistinctStep(key, p, x);
      DistinctKeys(key, p);
      var d := DistinctBy(key, p);
      assert forall i | 0 <= i < |d| :: key(d[i]) in Keys(key, d);
    }
  }

  /** Of the entries sharing a key the first one is kept. */
  lemma {:induction false} DistinctKeepsFirst<T, K>(key: T -> K, s: seq<T>, i: nat)
    requires i < |s| && key(s[i]) !in Keys(key, s[..i])
    ensures s[i] in DistinctBy(key, s)
  {
    var p, x := s[..|s| - 1], s[|s| - 1];
    assert s == p + [x];
    DistinctStep(key, p, x);
    if i < |p| {
      assert p[..i] == s[..i];
      DistinctKeepsFirst(key, p, i);
    } else {
      assert s[..i] == p;
    }
  }

  /** Concatenation of a sequence of sequences. */
  function Flatten<T>(ss: seq<seq<T>>): seq<T> {
    if ss == [] then [] else ss[0] + Flatten(ss[1..])
  }

  lemma {:induction false} FlattenAppend<T>(ss: seq<seq<T>>, t: seq<T>)
    ensures Flatten(ss + [t]) == Flatten(ss) + t
  {
    if ss == [] {
      assert ss + [t] == [t];
      assert Flatten([t]) == t + Flatten([t][1..]);
    } else {
      assert (ss + [t])[1..] == ss[1..] + [t];
      FlattenAppend(ss[1..], t);
    }
  }
}
