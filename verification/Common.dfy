/** What several modules share. */
module Common {

  datatype Option<+T> = None | Some(value: T)

  predicate StartsWith(s: string, prefix: string) {
    |prefix| <= |s| && s[..|prefix|] == prefix
  }

  predicate EndsWith(s: string, suffix: string) {
    |suffix| <= |s| && s[|s| - |suffix|..] == suffix
  }

  /** The first n parts, one after the other. */
  function Concat<T>(parts: seq<seq<T>>, n: nat): seq<T>
    requires n <= |parts|
  {
    if n == 0 then [] else Concat(parts, n - 1) + parts[n - 1]
  }

  lemma {:induction false} ConcatOfPrefix<T>(parts: seq<seq<T>>, more: seq<seq<T>>, n: nat)
    requires n <= |parts|
    ensures Concat(parts + more, n) == Concat(parts, n)
  {
    if n > 0 { ConcatOfPrefix(parts, more, n - 1); }
  }

  lemma {:induction false} ConcatOfMore<T>(parts: seq<seq<T>>, more: seq<seq<T>>)
    ensures Concat(parts + more, |parts| + |more|) == Concat(parts, |parts|) + Concat(more, |more|)
    decreases |more|
  {
    if more == [] {
      assert parts + more == parts;
    } else {
      var n := |more| - 1;
      var less, last := more[..n], [more[n]];
      assert parts + more == (parts + less) + last && less + last == more;
      ConcatOfPrefix(parts + less, last, |parts| + n);
      ConcatOfPrefix(less, last, n);
      ConcatOfMore(parts, less);
      assert (parts + more)[|parts| + n] == more[n];
    }
  }
}
