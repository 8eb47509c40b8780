/** Option and Result wrappers, and Java's rendering of a possibly-null string. */
module Base {

  /** A Java reference that may be null: `None` stands for null. */
  datatype Option<+T> = None | Some(value: T)

  /** The outcome of an operation that either yields a value or fails with an error. */
  datatype Result<+T, +E> = Ok(value: T) | Err(error: E)

  /** The text Java's string concatenation produces for a possibly-null String. */
  function Str(o: Option<string>): (r: string)
    ensures o.Some? ==> r == o.value
    ensures o.None? ==> r == "null"
  {
    match o
    case Some(s) => s
    case None => "null"
  }

  /** The position of the first occurrence of `x` in `s`. */
  function FirstIndex<T(==)>(s: seq<T>, x: T): (k: nat)
    requires x in s
    ensures k < |s| && s[k] == x && x !in s[..k]
  {
    if s[0] == x then 0
    else
      var k := FirstIndex(s[1..], x);
      assert s[..k + 1] == [s[0]] + s[1..][..k];
      k + 1
  }

  /** The first `x` in a text made of a part without `x`, then `x`, then anything is right after that part. */
  lemma FirstIndexTrasPrefijo<T>(a: seq<T>, x: T, b: seq<T>)
    requires x !in a
    ensures x in a + [x] + b && FirstIndex(a + [x] + b, x) == |a|
    ensures (a + [x] + b)[..|a|] == a && (a + [x] + b)[|a| + 1..] == b
  {
    var s := a + [x] + b;
    assert s[..|a|] == a && s[|a|] == x;
    var k := FirstIndex(s, x);
    assert forall i :: 0 <= i < |a| ==> s[i] == a[i];
    assert forall i :: 0 <= i < k ==> s[..k][i] == s[i];
  }

  /**
   * List.remove(Object) on a list of entities compared by reference: the first
   * occurrence of `x` is removed; without one the list is unchanged.
   */
  function RemoveFirst<T(==)>(s: seq<T>, x: T): (r: seq<T>)
    ensures x !in s ==> r == s
    ensures x in s ==> exists k :: 0 <= k < |s| && s[k] == x && x !in s[..k] && r == s[..k] + s[k + 1..]
    ensures multiset(r) == multiset(s) - multiset{x}
  {
    if x in s then
      var k := FirstIndex(s, x);
      assert s == s[..k] + [s[k]] + s[k + 1..];
      s[..k] + s[k + 1..]
    else
      s
  }

  /** `r` is `s` with some elements left out, in the same order. */
  predicate EsSubsecuencia<T(==)>(r: seq<T>, s: seq<T>)
    decreases |s|
  {
    if r == [] then true
    else if s == [] then false
    else (r[0] == s[0] && EsSubsecuencia(r[1..], s[1..])) || EsSubsecuencia(r, s[1..])
  }

  /** Every sequence is a subsequence of itself. */
  lemma {:induction false} SubsecuenciaReflexiva<T>(s: seq<T>)
    ensures EsSubsecuencia(s, s)
  {
    if s != [] {
      SubsecuenciaReflexiva(s[1..]);
    }
  }

  /** Leaving one element out of the middle keeps the rest in order. */
  lemma {:induction false} SinUnoEsSubsecuencia<T>(a: seq<T>, b: T, c: seq<T>)
    ensures EsSubsecuencia(a + c, a + [b] + c)
  {
    if a == [] {
      SubsecuenciaReflexiva(c);
      assert a + [b] + c == [b] + c && ([b] + c)[1..] == c && a + c == c;
    } else {
      SinUnoEsSubsecuencia(a[1..], b, c);
      assert (a + c)[1..] == a[1..] + c;
      assert (a + [b] + c)[1..] == a[1..] + [b] + c;
    }
  }

  /** Removing the first occurrence keeps the others in order. */
  lemma RemoveFirstEsSubsecuencia<T>(s: seq<T>, x: T)
    ensures EsSubsecuencia(RemoveFirst(s, x), s)
  {
    if x in s {
      var k := FirstIndex(s, x);
      assert s == s[..k] + [s[k]] + s[k + 1..];
      SinUnoEsSubsecuencia(s[..k], s[k], s[k + 1..]);
    } else {
      SubsecuenciaReflexiva(s);
    }
  }

  /** A list is a subsequence of itself followed by more elements. */
  lemma {:induction false} PrefijoEsSubsecuencia<T>(s: seq<T>, t: seq<T>)
    ensures EsSubsecuencia(s, s + t)
  {
    if s != [] {
      PrefijoEsSubsecuencia(s[1..], t);
      assert (s + t)[1..] == s[1..] + t;
    }
  }
}
