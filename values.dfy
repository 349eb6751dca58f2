/** Optional values, results with an error, and Python's `dict.setdefault` on a single entry. */
module Values {

  /** A dictionary entry that may be absent (the debate state is a partial dictionary). */
  datatype Option<T> = None | Some(value: T) {
    /** `dict.get(key, default)`: the stored value, or the default when the entry is absent. */
    function GetOr(default: T): T {
      if Some? then value else default
    }
  }

  /** The outcome of an operation that may raise. */
  datatype Result<T, E> = Success(value: T) | Failure(error: E)

  /** The outcome of a check that returns nothing but may raise. */
  datatype Outcome<E> = Pass | Fail(error: E)

  /** `dict.setdefault(key, default)` on one entry: an absent entry is filled in,
      a present one is never overwritten. */
  function SetDefault<T>(o: Option<T>, default: T): (r: Option<T>)
    ensures r.Some?
    ensures o.Some? ==> r == o
    ensures o.None? ==> r == Some(default)
    ensures r.value == o.GetOr(default)
  {
    if o.Some? then o else Some(default)
  }

  /** `[f(x) for x in s]`, built one element at a time from the front. */
  function Map<A, B>(f: A -> B, s: seq<A>): (r: seq<B>)
    ensures |r| == |s|
  {
    if s == [] then [] else Map(f, s[..|s| - 1]) + [f(s[|s| - 1])]
  }

  /** The `k`-th element of a mapped sequence is the image of the `k`-th element. */
  lemma {:induction false} MapAt<A, B>(f: A -> B, s: seq<A>)
    ensures forall k :: 0 <= k < |s| ==> Map(f, s)[k] == f(s[k])
  {
    if s != [] {
      var init := s[..|s| - 1];
      MapAt(f, init);
      forall k | 0 <= k < |s| ensures Map(f, s)[k] == f(s[k]) {
        if k < |init| {
          assert Map(f, s)[k] == Map(f, init)[k];
          assert s[k] == init[k];
        }
      }
    }
  }

  /** Mapping a sequence with one more element at the end adds that element's image at the end. */
  lemma MapSnoc<A, B>(f: A -> B, s: seq<A>, x: A)
    ensures Map(f, s + [x]) == Map(f, s) + [f(x)]
  {
    assert (s + [x])[..|s|] == s;
  }

  /** A non-empty sequence is its prefix followed by its last element. */
  lemma InitLast<T>(s: seq<T>)
    requires s != []
    ensures s == s[..|s| - 1] + [s[|s| - 1]]
  {
  }
}
