/** The judge's scoring and verdict, as functions of the topic, the transcript and the two memories. */
module Judge {
  import opened Values
  import opened Text
  import opened Turns

  /** The transcript length below which judging is refused. */
  const RequiredTurns: nat := 8

  /** Keyword tiers, matched as substrings of the lower-cased turn text. */
  const SciPrimary: seq<string> := ["risk", "safety", "standards", "audit", "testing", "accountab"]
  const SciSecondary: seq<string> := ["data", "medical", "surveil", "autonomous"]
  const PhilPrimary: seq<string> := ["freedom", "progress", "ethical", "autonomy", "philosoph"]
  const PhilSecondary: seq<string> := ["overregulate", "slow", "creativity", "experimen"]

  const Tie: string := "Tie"

  const Header: string := "Transcript summary (round by round):"
  const SciTag: string := "sci_score="
  const PhilTag: string := ", phil_score="
  const WinnerTag: string := " -> winner: "

  /** `any(k in txt for k in keys)`. */
  function AnyIn(keys: seq<string>, txt: string): bool {
    |keys| > 0 && (Contains(txt, keys[0]) || AnyIn(keys[1..], txt))
  }

  lemma {:induction false} AnyInIff(keys: seq<string>, txt: string)
    ensures AnyIn(keys, txt) <==> exists j :: 0 <= j < |keys| && Contains(txt, keys[j])
  {
    if |keys| > 0 {
      AnyInIff(keys[1..], txt);
      assert forall j :: 1 <= j < |keys| ==> keys[j] == keys[1..][j - 1];
    }
  }

  /** Points for one turn: 2 when some primary keyword occurs, 1 more when some secondary one does. */
  function TierPoints(primary: seq<string>, secondary: seq<string>, text: string): (p: nat)
    ensures p <= 3
    ensures p >= 2 <==> AnyIn(primary, Lower(text))
    ensures p % 2 == 1 <==> AnyIn(secondary, Lower(text))
  {
    var txt := Lower(text);
    (if AnyIn(primary, txt) then 2 else 0) + (if AnyIn(secondary, txt) then 1 else 0)
  }

  /** What a turn earns for the scientist: scored on the scientist's tiers when the scientist spoke it. */
  function SciTurnPoints(turn: Turn): nat {
    if turn.agent == Scientist then TierPoints(SciPrimary, SciSecondary, turn.text) else 0
  }

  /** What a turn earns for the philosopher: every turn not spoken by the scientist. */
  function PhilTurnPoints(turn: Turn): nat {
    if turn.agent == Scientist then 0 else TierPoints(PhilPrimary, PhilSecondary, turn.text)
  }

  /** The keyword points the scientist collects over a transcript, turn by turn. */
  function SciPoints(t: seq<Turn>): nat {
    if t == [] then 0 else SciPoints(t[..|t| - 1]) + SciTurnPoints(t[|t| - 1])
  }

  /** The keyword points the philosopher collects over a transcript, turn by turn. */
  function PhilPoints(t: seq<Turn>): nat {
    if t == [] then 0 else PhilPoints(t[..|t| - 1]) + PhilTurnPoints(t[|t| - 1])
  }

  /** Each turn is credited to one side only and is worth at most 3 points. */
  lemma {:induction false} PointsBound(t: seq<Turn>)
    ensures SciPoints(t) <= 3 * CountAgent(t, Scientist)
    ensures PhilPoints(t) <= 3 * (|t| - CountAgent(t, Scientist))
  {
    if t != [] {
      PointsBound(t[..|t| - 1]);
    }
  }

  /** The keyword loop of `judge_node`: scans the transcript once, crediting each turn to
      the scientist when it spoke it and to the philosopher otherwise. */
  method KeywordScores(t: seq<Turn>) returns (sci: nat, phil: nat)
    ensures sci == SciPoints(t) && phil == PhilPoints(t)
  {
    sci, phil := 0, 0;
    for i := 0 to |t|
      invariant sci == SciPoints(t[..i]) && phil == PhilPoints(t[..i])
    {
      assert t[..i + 1][..i] == t[..i];
      var txt := Lower(t[i].text);
      ghost var sci0, phil0 := sci, phil;
      if t[i].agent == Scientist {
        if AnyIn(SciPrimary, txt) { sci := sci + 2; }
        if AnyIn(SciSecondary, txt) { sci := sci + 1; }
      } else {
        if AnyIn(PhilPrimary, txt) { phil := phil + 2; }
        if AnyIn(PhilSecondary, txt) { phil := phil + 1; }
      }
      assert sci == sci0 + SciTurnPoints(t[i]) && phil == phil0 + PhilTurnPoints(t[i]);
    }
    assert t[..|t|] == t;
  }

  /** `len(set(mem))`. */
  function DistinctCount(mem: seq<string>): nat {
    |set b | b in mem|
  }

  /** A bullet adds to the distinct count exactly when it was not already stored. */
  lemma DistinctCountAppend(mem: seq<string>, b: string)
    ensures DistinctCount(mem + [b]) == DistinctCount(mem) + (if b in mem then 0 else 1)
  {
    var before := set x | x in mem;
    var after := set x | x in mem + [b];
    assert after == before + {b};
    if b !in mem {
      assert b !in before;
    }
  }

  /** The bonus is at most the number of bullets, and at least 1 when there is any. */
  lemma {:induction false} DistinctCountBound(mem: seq<string>)
    ensures DistinctCount(mem) <= |mem|
    ensures mem != [] ==> DistinctCount(mem) >= 1
  {
    if mem != [] {
      var init := mem[..|mem| - 1];
      DistinctCountBound(init);
      DistinctCountAppend(init, mem[|mem| - 1]);
      assert init + [mem[|mem| - 1]] == mem;
    }
  }

  /** The scientist's total: keyword points plus the number of distinct bullets in the full memory. */
  function ScientistScore(t: seq<Turn>, memSci: seq<string>): nat {
    SciPoints(t) + DistinctCount(memSci)
  }

  /** The philosopher's total: keyword points plus the number of distinct bullets in the full memory. */
  function PhilosopherScore(t: seq<Turn>, memPhil: seq<string>): nat {
    PhilPoints(t) + DistinctCount(memPhil)
  }

  /** The winner: whoever scores strictly more, `Tie` on equal scores. */
  function Winner(sci: int, phil: int): (w: string)
    ensures w == Name(Scientist) <==> sci > phil
    ensures w == Name(Philosopher) <==> phil > sci
    ensures w == Tie <==> sci == phil
  {
    if sci > phil then Name(Scientist) else if phil > sci then Name(Philosopher) else Tie
  }

  /** Swapping the two scores swaps the two winners and keeps a tie. */
  lemma WinnerSymmetric(sci: int, phil: int)
    ensures Winner(sci, phil) == Name(Scientist) <==> Winner(phil, sci) == Name(Philosopher)
    ensures Winner(sci, phil) == Tie <==> Winner(phil, sci) == Tie
  {
  }

  /** `f"{state.get('topic')}"`: the topic, or `None` when the entry is absent. */
  function TopicText(topic: Option<string>): string {
    if topic.Some? then topic.value else "None"
  }

  /** `f"R{round} {agent}: {text}"`. */
  function TurnLine(turn: Turn): string {
    "R" + IntToString(turn.round) + " " + Name(turn.agent) + ": " + turn.text
  }

  /** The lines of the judge summary: the topic, the header, then every turn. */
  function SummaryLines(topic: Option<string>, t: seq<Turn>): seq<string> {
    ["Topic: " + TopicText(topic), Header] + Map(TurnLine, t)
  }

  /** `"\n".join(summary_lines)`. */
  function Summary(topic: Option<string>, t: seq<Turn>): string {
    Join(SummaryLines(topic, t), "\n")
  }

  /** The summary starts with the topic line, lists every turn in round order and is never empty. */
  lemma SummaryShape(topic: Option<string>, t: seq<Turn>)
    ensures |SummaryLines(topic, t)| == |t| + 2
    ensures SummaryLines(topic, t)[0] == "Topic: " + TopicText(topic)
    ensures SummaryLines(topic, t)[1] == Header
    ensures forall k :: 0 <= k < |t| ==> SummaryLines(topic, t)[k + 2] == TurnLine(t[k])
    ensures "Topic: " <= Summary(topic, t)
  {
    MapAt(TurnLine, t);
    var lines := SummaryLines(topic, t);
    assert Summary(topic, t) == lines[0] + "\n" + Join(lines[1..], "\n");
  }

  /** The summary loop of `judge_node`: the topic line, the header, one line per turn, joined by newlines. */
  method SummaryText(topic: Option<string>, t: seq<Turn>) returns (summary: string)
    ensures summary == Summary(topic, t)
  {
    var head := ["Topic: " + TopicText(topic), Header];
    var lines := head;
    for i := 0 to |t|
      invariant lines == head + Map(TurnLine, t[..i])
    {
      assert t[..i + 1][..i] == t[..i];
      assert Map(TurnLine, t[..i + 1]) == Map(TurnLine, t[..i]) + [TurnLine(t[i])];
      lines := lines + [TurnLine(t[i])];
      assert lines == head + (Map(TurnLine, t[..i]) + [TurnLine(t[i])]);
    }
    assert t[..|t|] == t;
    summary := Join(lines, "\n");
  }

  /** `f"sci_score={sci}, phil_score={phil} -> winner: {winner}"`. */
  function Justification(sci: nat, phil: nat, winner: string): string {
    SciTag + NatToString(sci) + PhilTag + NatToString(phil) + WinnerTag + winner
  }

  /** The verdict the judge returns and writes into the state. */
  datatype Verdict = Verdict(winner: string, justification: string, summary: string)

  /** The whole verdict as a function of what the judge reads. */
  function Decide(topic: Option<string>, t: seq<Turn>, memSci: seq<string>, memPhil: seq<string>): Verdict {
    var sci := ScientistScore(t, memSci);
    var phil := PhilosopherScore(t, memPhil);
    var w := Winner(sci, phil);
    Verdict(w, Justification(sci, phil, w), Summary(topic, t))
  }

  /** The verdict part of `judge_node`: keyword points plus the distinct-bullet bonus per side,
      the summary, the winner by strict comparison and the justification line. */
  method Judgement(topic: Option<string>, t: seq<Turn>, memSci: seq<string>, memPhil: seq<string>)
    returns (v: Verdict)
    ensures v == Decide(topic, t, memSci, memPhil)
  {
    var sci, phil := KeywordScores(t);
    sci := sci + DistinctCount(memSci);
    phil := phil + DistinctCount(memPhil);
    assert sci == ScientistScore(t, memSci) && phil == PhilosopherScore(t, memPhil);
    var summary := SummaryText(topic, t);
    var w: string;
    if sci > phil {
      w := Name(Scientist);
    } else if phil > sci {
      w := Name(Philosopher);
    } else {
      w := Tie;
    }
    assert w == Winner(sci, phil);
    var justification := Justification(sci, phil, w);
    v := Verdict(w, justification, summary);
  }

  predicate StartsWith(s: string, p: string) {
    p <= s
  }

  /** A score written in decimal at the front of `s`, with what follows it. */
  function ParseScore(s: string): Option<(nat, string)> {
    var n := DigitPrefixLength(s);
    if n == 0 then None else Some((DecimalValue(s[..n]), s[n..]))
  }

  /** Reads both scores and the winner back out of a justification line. */
  function ParseJustification(j: string): Option<(nat, nat, string)> {
    if !StartsWith(j, SciTag) then None
    else match ParseScore(j[|SciTag|..])
      case None => None
      case Some((sci, r1)) =>
        if !StartsWith(r1, PhilTag) then None
        else match ParseScore(r1[|PhilTag|..])
          case None => None
          case Some((phil, r2)) =>
            if !StartsWith(r2, WinnerTag) then None else Some((sci, phil, r2[|WinnerTag|..]))
  }

  /** A score followed by text that does not start with a digit is read back exactly. */
  lemma ParseScoreOf(n: nat, rest: string)
    requires rest == [] || !IsDigit(rest[0])
    ensures ParseScore(NatToString(n) + rest) == Some((n, rest))
  {
    var d := NatToString(n);
    NatToStringDigits(n);
    DigitPrefixOfDigits(d, rest);
    assert (d + rest)[..|d|] == d;
    assert (d + rest)[|d|..] == rest;
    DecimalRoundTrip(n);
  }

  /** Dropping a leading tag leaves what follows it. */
  lemma AfterTag(p: string, rest: string)
    ensures StartsWith(p + rest, p) && (p + rest)[|p|..] == rest
  {
    assert (p + rest)[..|p|] == p;
  }

  /** The justification embeds both scores and the winner: all three can be read back from it. */
  lemma JustificationRoundTrip(sci: nat, phil: nat, winner: string)
    ensures ParseJustification(Justification(sci, phil, winner)) == Some((sci, phil, winner))
  {
    var d1, d2 := NatToString(sci), NatToString(phil);
    var r2 := WinnerTag + winner;
    var r1 := PhilTag + (d2 + r2);
    var j := Justification(sci, phil, winner);
    assert j == SciTag + (d1 + r1);
    AfterTag(SciTag, d1 + r1);
    ParseScoreOf(sci, r1);
    AfterTag(PhilTag, d2 + r2);
    ParseScoreOf(phil, r2);
    AfterTag(WinnerTag, winner);
  }
}
