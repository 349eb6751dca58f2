/** The repetition guard: arguments are compared after `strip()` and `lower()`, and a
    colliding argument is extended once with a parenthesised addendum. */
module Guard {
  import opened Text

  /** The form in which an argument is stored among the used ones: `candidate.strip().lower()`. */
  function Normalize(candidate: string): string {
    Lower(Strip(candidate))
  }

  /** `has_repeat`: the candidate, normalised, is already among the used arguments. */
  function HasRepeat(candidate: string, used: seq<string>): bool {
    Normalize(candidate) in used
  }

  /** The text the scientist adds to a repeated argument before the sub-example. */
  const ClarificationLabel: string := " (further clarification: "

  /** The text the philosopher adds to a repeated argument before the sub-example. */
  const ThoughtLabel: string := " (added thought: "

  /** The addendum `head + sub + ")"`: never empty, and it ends in a non-space character. */
  function Addendum(head: string, sub: string): (a: string)
    ensures |a| == |head| + |sub| + 1
    ensures a[|a| - 1] == ')' && !IsSpace(a[|a| - 1])
  {
    head + sub + ")"
  }

  /** The argument a node commits: the generated one, or, when it repeats, the generated one
      with the addendum appended once (the result is not checked again). */
  function Guarded(arg: string, used: seq<string>, addendum: string): string {
    if HasRepeat(arg, used) then arg + addendum else arg
  }

  /** A fresh argument is committed as generated; a repeated one keeps its text as a prefix, gains
      the addendum as its suffix, and its normalised form grows, so it no longer equals the stored one. */
  lemma GuardedSpec(arg: string, used: seq<string>, addendum: string)
    requires addendum != [] && !IsSpace(addendum[|addendum| - 1])
    ensures !HasRepeat(arg, used) ==> Guarded(arg, used, addendum) == arg
    ensures HasRepeat(arg, used) ==>
      var text := Guarded(arg, used, addendum);
      |text| > |arg| && text[..|arg|] == arg && text[|arg|..] == addendum
      && |Normalize(text)| > |Normalize(arg)|
  {
    if HasRepeat(arg, used) {
      NormalizeGrows(arg, addendum);
      var text := arg + addendum;
      assert text[..|arg|] == arg && text[|arg|..] == addendum;
    }
  }

  /** Leading whitespace of a concatenation comes from its first part unless that part is blank. */
  lemma {:induction false} TrimLeftAppend(a: string, b: string)
    ensures TrimLeft(a + b) == if AllSpace(a) then TrimLeft(b) else TrimLeft(a) + b
  {
    if |a| > 0 {
      assert (a + b)[0] == a[0];
      assert (a + b)[1..] == a[1..] + b;
      TrimLeftAppend(a[1..], b);
      if IsSpace(a[0]) {
        assert AllSpace(a) <==> AllSpace(a[1..]) by {
          if AllSpace(a[1..]) {
            forall i | 0 <= i < |a| ensures IsSpace(a[i]) {
              if i > 0 { assert a[i] == a[1..][i - 1]; }
            }
          }
        }
      }
    } else {
      assert a + b == b;
    }
  }

  /** A string with no whitespace at either end is its own `strip()`. */
  lemma StripOfStripped(y: string)
    requires y == [] || (!IsSpace(y[0]) && !IsSpace(y[|y| - 1]))
    ensures Strip(y) == y
  {
  }

  /** Appending a non-empty text that ends in a non-space character makes the normalised form longer. */
  lemma {:induction false} NormalizeGrows(arg: string, addendum: string)
    requires addendum != [] && !IsSpace(addendum[|addendum| - 1])
    ensures |Normalize(arg + addendum)| > |Normalize(arg)|
  {
    TrimLeftAppend(arg, addendum);
    TrimLeftSpec(addendum);
    var l := TrimLeft(arg + addendum);
    assert l != [] && l[|l| - 1] == addendum[|addendum| - 1] by {
      if AllSpace(arg) {
        var k := |addendum| - |l|;
        assert l[|l| - 1] == addendum[k..][|l| - 1];
      }
    }
    assert TrimRight(l) == l;
    LowerSpec(Strip(arg + addendum));
    LowerSpec(Strip(arg));
    StripSpec(arg);
    if !AllSpace(arg) {
      TrimRightSpec(TrimLeft(arg));
    }
  }

  /** ASCII lower-casing maps whitespace to whitespace and nothing else to whitespace. */
  lemma LowerKeepsSpace(c: char)
    ensures IsSpace(LowerChar(c)) <==> IsSpace(c)
  {
  }

  /** Lower-casing twice is lower-casing once. */
  lemma LowerIdempotent(x: string)
    ensures Lower(Lower(x)) == Lower(x)
  {
    var y := Lower(x);
    LowerSpec(x);
    LowerSpec(y);
    forall i | 0 <= i < |y| ensures LowerChar(y[i]) == y[i] {
      assert y[i] == LowerChar(x[i]);
    }
  }

  /** Normalising twice is normalising once, so a stored argument counts as a repeat of itself. */
  lemma NormalizeIdempotent(candidate: string)
    ensures Normalize(Normalize(candidate)) == Normalize(candidate)
  {
    var x := Strip(candidate);
    var y := Lower(x);
    StripSpec(candidate);
    LowerSpec(x);
    assert y == Normalize(candidate);
    if y != [] {
      assert !IsSpace(x[0]) && !IsSpace(x[|x| - 1]);
      LowerKeepsSpace(x[0]);
      LowerKeepsSpace(x[|x| - 1]);
      assert y[0] == LowerChar(x[0]) && y[|y| - 1] == LowerChar(x[|x| - 1]);
    }
    StripOfStripped(y);
    LowerIdempotent(x);
    assert Normalize(y) == Lower(Strip(y)) == Lower(y);
  }

  /** Whitespace padding on either side does not change the normalised form. */
  lemma {:induction false} NormalizeIgnoresPadding(candidate: string, pre: string, post: string)
    requires AllSpace(pre) && AllSpace(post)
    ensures Normalize(pre + candidate + post) == Normalize(candidate)
  {
    TrimLeftAppend(pre, candidate + post);
    assert pre + candidate + post == pre + (candidate + post);
    TrimLeftAppend(candidate, post);
    if AllSpace(candidate) {
      var t := TrimLeft(post);
      TrimLeftSpec(post);
      assert t == [];
      StripSpec(candidate);
    } else {
      TrimRightAppend(TrimLeft(candidate), post);
    }
  }

  /** Trailing whitespace appended to a string is removed by `rstrip()`. */
  lemma {:induction false} TrimRightAppend(a: string, post: string)
    requires AllSpace(post)
    ensures TrimRight(a + post) == TrimRight(a)
  {
    if |post| > 0 {
      var p := post[..|post| - 1];
      assert (a + post)[..|a + post| - 1] == a + p;
      assert AllSpace(p) by {
        forall i | 0 <= i < |p| ensures IsSpace(p[i]) { assert p[i] == post[i]; }
      }
      TrimRightAppend(a, p);
    } else {
      assert a + post == a;
    }
  }

  /** `has_repeat` ignores surrounding whitespace and the case of ASCII letters. */
  lemma RepeatModuloPadding(candidate: string, pre: string, post: string, used: seq<string>)
    requires AllSpace(pre) && AllSpace(post)
    ensures HasRepeat(pre + candidate + post, used) == HasRepeat(candidate, used)
    ensures HasRepeat(Normalize(candidate), used) == HasRepeat(candidate, used)
  {
    NormalizeIgnoresPadding(candidate, pre, post);
    NormalizeIdempotent(candidate);
  }
}
