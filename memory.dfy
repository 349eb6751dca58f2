/** Memory curation: the bullet digested from one turn's own text, and the rolling
    summary over the last three bullets of a speaker's memory. */
module Memory {
  import opened Text

  /** Length of the fallback bullet when the text holds no usable sentence. */
  const FallbackCap: nat := 120

  /** Length cap of a bullet built from sentences. */
  const BulletCap: nat := 250

  /** How many of the most recent bullets the rolling summary joins. */
  const WindowSize: nat := 3

  /** The separator between bullets in a rolling summary. */
  const SummarySeparator: string := "; "

  /** `[s.strip() for s in parts if s.strip()]`. */
  function StripNonEmpty(parts: seq<string>): (fr: seq<string>)
    ensures |fr| <= |parts|
  {
    if parts == [] then []
    else
      var s := Strip(parts[0]);
      (if s == [] then [] else [s]) + StripNonEmpty(parts[1..])
  }

  /** Every kept piece is non-empty and has no whitespace at either end. */
  lemma {:induction false} StripNonEmptyTrimmed(parts: seq<string>)
    ensures forall j :: 0 <= j < |StripNonEmpty(parts)| ==>
      var f := StripNonEmpty(parts)[j];
      f != [] && !IsSpace(f[0]) && !IsSpace(f[|f| - 1])
  {
    if parts != [] {
      StripSpec(parts[0]);
      StripNonEmptyTrimmed(parts[1..]);
    }
  }

  /** The sentences of a text: its '.'-separated pieces, stripped, blank ones dropped. */
  function Fragments(text: string): seq<string> {
    StripNonEmpty(Split(text, '.'))
  }

  /** The first sentence, followed by `". "` and the second one when there is a second. */
  function Lead(fr: seq<string>): string
    requires fr != []
  {
    if |fr| > 1 then fr[0] + ". " + fr[1] else fr[0]
  }

  /** `make_bullet_from_text`. */
  function MakeBullet(text: string): string {
    var fr := Fragments(text);
    if |fr| == 0 then Take(text, FallbackCap) else Take(Lead(fr), BulletCap)
  }

  /** A bullet is at most 250 characters; without a usable sentence it is the first 120
      characters of the text, otherwise a non-blank prefix of the first sentence joined to the
      second; it is empty only for the empty text. */
  lemma MakeBulletSpec(text: string)
    ensures |MakeBullet(text)| <= BulletCap
    ensures Fragments(text) == [] ==>
      MakeBullet(text) <= text && |MakeBullet(text)| == if |text| <= FallbackCap then |text| else FallbackCap
    ensures Fragments(text) != [] ==>
      MakeBullet(text) <= Lead(Fragments(text)) && MakeBullet(text) != [] && !IsSpace(MakeBullet(text)[0])
    ensures Fragments(text) != [] ==>
      |MakeBullet(text)| == if |Lead(Fragments(text))| <= BulletCap then |Lead(Fragments(text))| else BulletCap
    ensures MakeBullet(text) == [] <==> text == []
  {
    FragmentsOfEmpty(text);
    StripNonEmptyTrimmed(Split(text, '.'));
  }

  /** The empty text has no sentences. */
  lemma FragmentsOfEmpty(text: string)
    ensures text == [] ==> Fragments(text) == []
  {
    if text == [] {
      var parts := Split(text, '.');
      assert parts == [""];
      StripSpec(parts[0]);
      assert parts[1..] == [];
    }
  }

  /** No '.' survives in a sentence. */
  lemma {:induction false} StripNonEmptyAvoids(parts: seq<string>, c: char)
    requires forall j :: 0 <= j < |parts| ==> c !in parts[j]
    ensures forall j :: 0 <= j < |StripNonEmpty(parts)| ==> c !in StripNonEmpty(parts)[j]
  {
    if parts != [] {
      StripNonEmptyAvoids(parts[1..], c);
      StripKeepsChars(parts[0]);
      assert c !in Strip(parts[0]);
    }
  }

  /** Every sentence of a text is free of '.'. */
  lemma FragmentsHaveNoDot(text: string)
    ensures forall j :: 0 <= j < |Fragments(text)| ==> '.' !in Fragments(text)[j]
  {
    SplitAvoids(text, '.');
    StripNonEmptyAvoids(Split(text, '.'), '.');
  }

  /** Only whitespace and dots. */
  predicate SpacesAndDots(s: string) {
    forall i :: 0 <= i < |s| ==> IsSpace(s[i]) || s[i] == '.'
  }

  /** Every piece is blank. */
  predicate AllBlank(parts: seq<string>) {
    forall j :: 0 <= j < |parts| ==> AllSpace(parts[j])
  }

  lemma AllBlankCons(p: string, ps: seq<string>)
    ensures AllBlank([p] + ps) <==> AllSpace(p) && AllBlank(ps)
  {
    assert ([p] + ps)[0] == p;
    assert forall j :: 0 <= j < |ps| ==> ps[j] == ([p] + ps)[j + 1];
  }

  lemma AllSpaceCons(c: char, x: string)
    ensures AllSpace([c] + x) <==> IsSpace(c) && AllSpace(x)
  {
    assert ([c] + x)[0] == c;
    assert forall i :: 0 <= i < |x| ==> x[i] == ([c] + x)[i + 1];
  }

  lemma SpacesAndDotsCons(s: string)
    requires s != []
    ensures SpacesAndDots(s) <==> (IsSpace(s[0]) || s[0] == '.') && SpacesAndDots(s[1..])
  {
    assert forall i :: 0 <= i < |s| - 1 ==> s[1..][i] == s[i + 1];
  }

  /** All pieces are dropped exactly when each is blank. */
  lemma {:induction false} StripNonEmptyNone(parts: seq<string>)
    ensures StripNonEmpty(parts) == [] <==> AllBlank(parts)
  {
    if parts != [] {
      StripSpec(parts[0]);
      StripNonEmptyNone(parts[1..]);
      AllBlankCons(parts[0], parts[1..]);
      assert parts == [parts[0]] + parts[1..];
    }
  }

  /** Pieces of a split are all blank exactly when the text is whitespace and dots only. */
  lemma {:induction false} SplitAllBlank(s: string)
    ensures AllBlank(Split(s, '.')) <==> SpacesAndDots(s)
  {
    if |s| > 0 {
      SplitAllBlank(s[1..]);
      SpacesAndDotsCons(s);
      var rest := Split(s[1..], '.');
      if s[0] == '.' {
        AllBlankCons("", rest);
      } else {
        AllBlankCons([s[0]] + rest[0], rest[1..]);
        AllSpaceCons(s[0], rest[0]);
        AllBlankCons(rest[0], rest[1..]);
        assert rest == [rest[0]] + rest[1..];
      }
    }
  }

  /** The fallback bullet is taken exactly when the text is nothing but whitespace and dots. */
  lemma NoFragmentsIff(text: string)
    ensures Fragments(text) == [] <==> SpacesAndDots(text)
  {
    StripNonEmptyNone(Split(text, '.'));
    SplitAllBlank(text);
  }

  /** `mem[-3:]`: the last three entries, or all of them when there are fewer. */
  function Window(mem: seq<string>): seq<string> {
    if |mem| < WindowSize then mem else mem[|mem| - WindowSize..]
  }

  /** The window holds min(3, n) bullets, the most recent ones, in chronological order. */
  lemma WindowIsRecentSuffix(mem: seq<string>)
    ensures |Window(mem)| == if |mem| < WindowSize then |mem| else WindowSize
    ensures mem == mem[..|mem| - |Window(mem)|] + Window(mem)
  {
  }

  /** Appending a bullet slides the window: the new bullet enters last and, once three are held, the oldest leaves. */
  lemma WindowSlides(mem: seq<string>, b: string)
    ensures Window(mem + [b]) == (if |mem| < WindowSize then mem else Window(mem)[1..]) + [b]
  {
    if |mem| >= WindowSize {
      assert (mem + [b])[|mem| + 1 - WindowSize..] == mem[|mem| - WindowSize + 1..] + [b];
    }
  }

  /** `"; ".join(mem[-3:])`. */
  function RollingSummary(mem: seq<string>): string {
    Join(Window(mem), SummarySeparator)
  }
}
