/** The turn-driving loop of `run_debate`: a fresh state, the topic check, eight alternating
    turns each followed by the memory summary, then one verdict. */
module Scheduler {
  import opened Values
  import opened Text
  import opened Turns
  import opened Guard
  import opened Memory
  import opened Judge
  import opened Nodes

  /** The speaker of round `n`: the scientist on odd rounds, the philosopher on even ones. */
  function SpeakerFor(n: int): Agent {
    if n % 2 == 1 then Scientist else Philosopher
  }

  /** The stored form of a turn's argument. */
  function NormalizedText(turn: Turn): string {
    Normalize(turn.text)
  }

  /** The used-argument list a transcript leaves behind: every text, normalised, in order. */
  function UsedOf(t: seq<Turn>): seq<string> {
    Map(NormalizedText, t)
  }

  /** The turns spoken as "Scientist", in order. */
  function ScientistTurns(t: seq<Turn>): (s: seq<Turn>)
    ensures |s| == CountAgent(t, Scientist)
  {
    if t == [] then []
    else ScientistTurns(t[..|t| - 1]) + (if t[|t| - 1].agent == Scientist then [t[|t| - 1]] else [])
  }

  /** The turns spoken under any other name, in order. */
  function PhilosopherTurns(t: seq<Turn>): (s: seq<Turn>)
    ensures |s| == |t| - CountAgent(t, Scientist)
  {
    if t == [] then []
    else PhilosopherTurns(t[..|t| - 1]) + (if t[|t| - 1].agent == Scientist then [] else [t[|t| - 1]])
  }

  /** The bullet `update_memory_for_agent` stores for a turn. */
  function TurnBullet(turn: Turn): string {
    MakeBullet(turn.text)
  }

  /** The scientist's memory a transcript leaves behind: one bullet per turn spoken as "Scientist". */
  function SciBullets(t: seq<Turn>): seq<string> {
    Map(TurnBullet, ScientistTurns(t))
  }

  /** The philosopher's memory a transcript leaves behind: one bullet per turn spoken under any other name. */
  function PhilBullets(t: seq<Turn>): seq<string> {
    Map(TurnBullet, PhilosopherTurns(t))
  }

  /** What the speaker of round `n` says given the arguments used so far. */
  type Speech = (Agent, int, seq<string>) -> string

  /** The speech of a debate on `topic`: the guarded argument the generators give that speaker. */
  function Say(topic: string, gen: Generator, pick: Generator): Speech {
    (a: Agent, n: int, used: seq<string>) => TurnText(a, topic, n, used, gen, pick)
  }

  /** The turn the next round adds after `prev`: that round's speaker says its argument,
      guarded against the arguments used so far, and commits it with its round number. */
  function StepTurn(say: Speech, prev: seq<Turn>): Turn {
    var n := |prev| + 1;
    var a := SpeakerFor(n);
    Turn(n, a, say(a, n, UsedOf(prev)))
  }

  /** The first `n` turns of a debate. */
  function Debate(say: Speech, n: nat): (t: seq<Turn>)
    ensures |t| == n
  {
    if n == 0 then []
    else
      var prev := Debate(say, n - 1);
      prev + [StepTurn(say, prev)]
  }

  /** Each turn of `t` is the one its prefix lets the next speaker add. */
  predicate Faithful(say: Speech, t: seq<Turn>) {
    t == [] || (Faithful(say, t[..|t| - 1]) && t[|t| - 1] == StepTurn(say, t[..|t| - 1]))
  }

  /** A transcript is faithful exactly when it is the debate's first |t| turns. */
  lemma {:induction false} FaithfulIsDebate(say: Speech, t: seq<Turn>)
    ensures Faithful(say, t) <==> t == Debate(say, |t|)
  {
    if t != [] {
      var prev := t[..|t| - 1];
      FaithfulIsDebate(say, prev);
      if t == Debate(say, |t|) {
        assert prev == Debate(say, |t| - 1);
      }
      InitLast(t);
    }
  }

  /** The entries a transcript leaves behind: its length as the counter, the transcript, every
      text normalised, and one bullet per turn in the memory of whoever spoke it. */
  function Digest(t: seq<Turn>): Entries {
    Entries(|t|, t, UsedOf(t), SciBullets(t), PhilBullets(t))
  }

  /** A node committing the next turn takes the digest of a transcript to the digest of the longer one. */
  lemma DigestSnoc(t: seq<Turn>, agent: Agent, text: string)
    ensures Spoken(Digest(t), agent, text) == Digest(t + [Turn(|t| + 1, agent, text)])
  {
    AppendTurn(t, Turn(|t| + 1, agent, text));
  }

  /** The entries the speaking nodes leave when they commit the turns of `t` one after the
      other, starting from the entries `user_input_node` sets up. */
  function Replay(t: seq<Turn>): (e: Entries)
    ensures e.round == |t|
  {
    if t == [] then Entries(0, [], [], [], [])
    else
      var last := t[|t| - 1];
      Spoken(Replay(t[..|t| - 1]), last.agent, last.text)
  }

  /** Committing the turns of a transcript numbered 1, 2, ... gives back that transcript, with the
      used arguments and both memories it leaves behind. */
  lemma {:induction false} ReplayDigest(t: seq<Turn>)
    requires forall k :: 0 <= k < |t| ==> t[k].round == k + 1
    ensures Replay(t) == Digest(t)
  {
    if t != [] {
      var prev := t[..|t| - 1];
      var last := t[|t| - 1];
      ReplayDigest(prev);
      assert last == Turn(|prev| + 1, last.agent, last.text);
      InitLast(t);
      calc {
        Replay(t);
        Spoken(Replay(prev), last.agent, last.text);
        Spoken(Digest(prev), last.agent, last.text);
        { DigestSnoc(prev, last.agent, last.text); }
        Digest(t);
      }
    }
  }

  /** Adding the turn the next speaker says keeps a transcript faithful. */
  lemma FaithfulSnoc(say: Speech, t: seq<Turn>)
    requires Faithful(say, t)
    ensures Faithful(say, t + [StepTurn(say, t)])
  {
    assert (t + [StepTurn(say, t)])[..|t|] == t;
  }

  /** One agent turn on the entries of a faithful transcript: when the speaker of the next round
      commits what the debate's speech says, the transcript grows by exactly that turn, stays
      faithful, and the entries are still the replay of it. */
  lemma Advance(topic: string, gen: Generator, pick: Generator, e0: Entries, agent: Agent, text: string, e1: Entries)
    requires e0 == Replay(e0.transcript) && Faithful(Say(topic, gen, pick), e0.transcript)
    requires agent == SpeakerFor(e0.round + 1)
    requires text == TurnText(agent, topic, e0.round + 1, e0.used, gen, pick)
    requires e1 == Spoken(e0, agent, text)
    ensures e1.transcript == e0.transcript + [StepTurn(Say(topic, gen, pick), e0.transcript)]
    ensures e1 == Replay(e1.transcript) && Faithful(Say(topic, gen, pick), e1.transcript)
  {
    var t := e0.transcript;
    FaithfulScheduled(Say(topic, gen, pick), t);
    ReplayDigest(t);
    FaithfulSnoc(Say(topic, gen, pick), t);
    assert e1.transcript[..|t|] == t;
  }

  /** Entry `k` of the transcript is round `k + 1`, spoken by that round's speaker. */
  predicate Scheduled(t: seq<Turn>) {
    forall k :: 0 <= k < |t| ==> t[k].round == k + 1 && t[k].agent == SpeakerFor(k + 1)
  }

  /** A faithful transcript is scheduled: rounds count up from 1 and the speakers alternate. */
  lemma {:induction false} FaithfulScheduled(say: Speech, t: seq<Turn>)
    requires Faithful(say, t)
    ensures Scheduled(t)
  {
    if t != [] {
      var prev := t[..|t| - 1];
      FaithfulScheduled(say, prev);
      forall k | 0 <= k < |t| ensures t[k].round == k + 1 && t[k].agent == SpeakerFor(k + 1) {
        if k < |t| - 1 {
          assert t[k] == prev[k];
        }
      }
    }
  }

  /** A scheduled transcript gives the scientist the odd rounds and the philosopher the even ones. */
  lemma {:induction false} ScheduledCounts(t: seq<Turn>)
    requires Scheduled(t)
    ensures CountAgent(t, Scientist) == (|t| + 1) / 2
    ensures CountAgent(t, Philosopher) == |t| / 2
  {
    if t != [] {
      var init := t[..|t| - 1];
      assert Scheduled(init) by {
        forall k | 0 <= k < |init| ensures init[k].round == k + 1 && init[k].agent == SpeakerFor(k + 1) {
          assert init[k] == t[k];
        }
      }
      ScheduledCounts(init);
      assert t[|t| - 1].agent == SpeakerFor(|t|);
    }
  }

  /** A scheduled transcript fills each memory with one bullet per turn of that speaker. */
  lemma ScheduledBullets(t: seq<Turn>)
    requires Scheduled(t)
    ensures |SciBullets(t)| == (|t| + 1) / 2
    ensures |PhilBullets(t)| == |t| / 2
  {
    ScheduledCounts(t);
  }

  /** What a finished run leaves: a faithful transcript of 8 turns is the debate's first 8 turns,
      alternates the speakers starting with the scientist, gives each of them 4 turns and 4
      bullets, and its replay holds every text normalised and one bullet per turn. */
  lemma FinishedDebate(say: Speech, t: seq<Turn>)
    requires Faithful(say, t) && |t| == MaxRounds
    ensures t == Debate(say, |t|) && Scheduled(t)
    ensures CountAgent(t, Scientist) == 4 && CountAgent(t, Philosopher) == 4
    ensures |SciBullets(t)| == 4 && |PhilBullets(t)| == 4
    ensures Replay(t) == Digest(t)
  {
    FaithfulIsDebate(say, t);
    FaithfulScheduled(say, t);
    ScheduledCounts(t);
    ScheduledBullets(t);
    ReplayDigest(t);
  }

  /** The agent node one pass of the `run_debate` loop runs: the speaker chosen by the parity of
      the next round takes a turn, which cannot be refused while the counter is below 8. */
  method Speak(st: DebateState, topic: string, gen: Generator, pick: Generator) returns (text: string)
    requires st.Round() < MaxRounds && st.topic == Some(topic) && st.Initialised()
    modifies st
    ensures st.topic == Some(topic) && st.Initialised()
    ensures text == TurnText(SpeakerFor(old(st.Round()) + 1), topic, old(st.Round()) + 1, old(st.UsedArgs()), gen, pick)
    ensures st.Read() == Spoken(old(st.Read()), SpeakerFor(old(st.Round()) + 1), text)
    ensures st.summaryScientist == old(st.summaryScientist) && st.summaryPhilosopher == old(st.summaryPhilosopher)
    ensures st.winner == old(st.winner) && st.judgeSummary == old(st.judgeSummary)
    ensures st.judgeJustification == old(st.judgeJustification)
  {
    var agent := SpeakerFor(st.Round() + 1);
    var res := st.AgentNode(agent, gen, pick);
    text := res.value;
  }

  /** The agent node of one pass on a state holding the replay of a faithful transcript: it adds
      the turn the debate's speech gives the next speaker, and the state holds the replay of the
      longer transcript. */
  method TakeTurn(st: DebateState, topic: string, gen: Generator, pick: Generator) returns (turn: Turn)
    requires st.Round() < MaxRounds && st.topic == Some(topic) && st.Initialised()
    requires st.Read() == Replay(st.Transcript()) && Faithful(Say(topic, gen, pick), st.Transcript())
    modifies st
    ensures turn == StepTurn(Say(topic, gen, pick), old(st.Transcript()))
    ensures st.Transcript() == old(st.Transcript()) + [turn]
    ensures st.topic == Some(topic) && st.Initialised()
    ensures st.Read() == Replay(st.Transcript()) && Faithful(Say(topic, gen, pick), st.Transcript())
    ensures st.summaryScientist == old(st.summaryScientist) && st.summaryPhilosopher == old(st.summaryPhilosopher)
    ensures st.winner == old(st.winner) && st.judgeSummary == old(st.judgeSummary)
    ensures st.judgeJustification == old(st.judgeJustification)
  {
    ghost var e0 := st.Read();
    var agent := SpeakerFor(st.Round() + 1);
    var next := st.Round() + 1;
    var text := Speak(st, topic, gen, pick);
    Advance(topic, gen, pick, e0, agent, text, st.Read());
    turn := Turn(next, agent, text);
  }

  /** The `while` loop of `run_debate`: from a state holding no turns, passes until the counter
      reaches 8; each pass adds the turn the debate's speech gives that round's speaker. */
  method PlayRounds(st: DebateState, topic: string, gen: Generator, pick: Generator)
    requires st.topic == Some(topic) && st.Initialised() && st.Read() == Replay([])
    requires st.winner.None? && st.judgeSummary.None? && st.judgeJustification.None?
    modifies st
    ensures st.topic == Some(topic) && st.Initialised()
    ensures |st.Transcript()| == MaxRounds && Faithful(Say(topic, gen, pick), st.Transcript())
    ensures st.Read() == Replay(st.Transcript())
    ensures st.summaryScientist == Some(RollingSummary(st.MemoryScientist()))
    ensures st.summaryPhilosopher == Some(RollingSummary(st.MemoryPhilosopher()))
    ensures st.winner.None? && st.judgeSummary.None? && st.judgeJustification.None?
  {
    while st.Round() < MaxRounds
      invariant st.Round() <= MaxRounds && st.topic == Some(topic) && st.Initialised()
      invariant st.Read() == Replay(st.Transcript()) && Faithful(Say(topic, gen, pick), st.Transcript())
      invariant st.Round() > 0 ==> st.summaryScientist == Some(RollingSummary(st.MemoryScientist()))
      invariant st.Round() > 0 ==> st.summaryPhilosopher == Some(RollingSummary(st.MemoryPhilosopher()))
      invariant st.winner.None? && st.judgeSummary.None? && st.judgeJustification.None?
      decreases MaxRounds - st.Round()
    {
      var _ := TakeTurn(st, topic, gen, pick);
      st.MemoryNode();
    }
  }

  /** `run_debate`: stores the topic in a fresh state, runs `user_input_node` (which may refuse it),
      resets the round counter, plays the eight rounds, then judges. */
  method RunDebate(topicText: string, gen: Generator, pick: Generator) returns (st: DebateState, r: Result<Verdict, Error>)
    ensures fresh(st)
    ensures r.Failure? <==> Strip(topicText) == []
    ensures r.Failure? ==> r.error == NoTopicProvided && st.transcript.None? && st.winner.None?
    ensures r.Success? ==>
      && st.topic == Some(topicText) && st.Initialised()
      && |st.Transcript()| == MaxRounds && Faithful(Say(topicText, gen, pick), st.Transcript())
      && st.Read() == Replay(st.Transcript())
      && st.summaryScientist == Some(RollingSummary(st.MemoryScientist()))
      && st.summaryPhilosopher == Some(RollingSummary(st.MemoryPhilosopher()))
      && r.value == Decide(st.topic, st.Transcript(), st.MemoryScientist(), st.MemoryPhilosopher())
      && st.winner == Some(r.value.winner)
      && st.judgeSummary == Some(r.value.summary)
      && st.judgeJustification == Some(r.value.justification)
  {
    st := new DebateState();
    st.topic := Some(topicText);
    var input := st.UserInput();
    if input.Failure? {
      return st, Failure(input.error);
    }
    st.round := Some(0);
    PlayRounds(st, topicText, gen, pick);
    r := st.JudgeNode();
  }

  /** One more turn appends one used argument and one bullet to the memory of whoever spoke it. */
  lemma AppendTurn(prev: seq<Turn>, turn: Turn)
    ensures UsedOf(prev + [turn]) == UsedOf(prev) + [Normalize(turn.text)]
    ensures SciBullets(prev + [turn]) == SciBullets(prev) + (if turn.agent == Scientist then [MakeBullet(turn.text)] else [])
    ensures PhilBullets(prev + [turn]) == PhilBullets(prev) + (if turn.agent == Scientist then [] else [MakeBullet(turn.text)])
  {
    var t := prev + [turn];
    assert t[..|prev|] == prev;
    MapSnoc(NormalizedText, prev, turn);
    if turn.agent == Scientist {
      assert ScientistTurns(t) == ScientistTurns(prev) + [turn];
      assert PhilosopherTurns(t) == PhilosopherTurns(prev);
      MapSnoc(TurnBullet, ScientistTurns(prev), turn);
    } else {
      assert ScientistTurns(t) == ScientistTurns(prev);
      assert PhilosopherTurns(t) == PhilosopherTurns(prev) + [turn];
      MapSnoc(TurnBullet, PhilosopherTurns(prev), turn);
    }
  }
}
