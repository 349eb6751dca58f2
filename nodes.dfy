/** The shared debate state and the nodes that update it in place. */
module Nodes {
  import opened Values
  import opened Text
  import opened Turns
  import opened Guard
  import opened Memory
  import opened Judge

  /** The errors the nodes raise. */
  datatype Error =
    | NoTopicProvided    // the topic is absent or blank after `strip()`
    | MaxRoundsReached   // a turn was requested once the round counter is 8 or more
    | TopicKeyMissing    // an agent node found no topic entry to generate from
    | DebateIncomplete   // the judge was invoked with fewer than 8 transcript entries

  /** The round counter value from which no further turn is allowed. */
  const MaxRounds: int := 8

  /** An argument source, given the agent, the topic and the round number. */
  type Generator = (Agent, string, int) -> string

  /** The text a node adds before the sub-example when its argument repeats. */
  function AddendumHead(agent: Agent): string {
    if agent == Scientist then ClarificationLabel else ThoughtLabel
  }

  /** The text an agent commits in round `n`: the generated argument, extended once with the
      addendum when its normalised form is among `used`. */
  function TurnText(agent: Agent, topic: string, n: int, used: seq<string>, gen: Generator, pick: Generator): string {
    Guarded(gen(agent, topic, n), used, Addendum(AddendumHead(agent), pick(agent, topic, n)))
  }

  /** The entries the speaking nodes read and update, each with the default `state.get` gives it. */
  datatype Entries = Entries(round: int, transcript: seq<Turn>, used: seq<string>, memSci: seq<string>, memPhil: seq<string>)

  /** What the tail of an agent node makes of the entries when `agent` commits `text`:
      `mark_used` appends the normalised text, `append_transcript` raises the counter and appends
      the turn, `update_memory_for_agent` appends one bullet to the speaker's own memory. */
  function Spoken(e: Entries, agent: Agent, text: string): Entries {
    var bullet := [MakeBullet(text)];
    Entries(e.round + 1, e.transcript + [Turn(e.round + 1, agent, text)], e.used + [Normalize(text)],
            if agent == Scientist then e.memSci + bullet else e.memSci,
            if agent == Scientist then e.memPhil else e.memPhil + bullet)
  }

  /** The debate state: a dictionary in which every entry may be absent. */
  class DebateState {
    var topic: Option<string>
    var round: Option<int>
    var transcript: Option<seq<Turn>>
    var memoryScientist: Option<seq<string>>
    var memoryPhilosopher: Option<seq<string>>
    var usedArgs: Option<seq<string>>
    var summaryScientist: Option<string>
    var summaryPhilosopher: Option<string>
    var winner: Option<string>
    var judgeSummary: Option<string>
    var judgeJustification: Option<string>

    /** `DebateState()`: an empty dictionary. */
    constructor ()
      ensures topic.None? && round.None? && transcript.None? && usedArgs.None?
      ensures memoryScientist.None? && memoryPhilosopher.None?
      ensures summaryScientist.None? && summaryPhilosopher.None?
      ensures winner.None? && judgeSummary.None? && judgeJustification.None?
    {
      topic, round, transcript, usedArgs := None, None, None, None;
      memoryScientist, memoryPhilosopher := None, None;
      summaryScientist, summaryPhilosopher := None, None;
      winner, judgeSummary, judgeJustification := None, None, None;
    }

    /** `state.get("round", 0)` */
    function Round(): int reads this`round {
      round.GetOr(0)
    }

    /** `state.get("transcript", [])` */
    function Transcript(): seq<Turn> reads this`transcript {
      transcript.GetOr([])
    }

    /** `state.get("memory_scientist", [])` */
    function MemoryScientist(): seq<string> reads this`memoryScientist {
      memoryScientist.GetOr([])
    }

    /** `state.get("memory_philosopher", [])` */
    function MemoryPhilosopher(): seq<string> reads this`memoryPhilosopher {
      memoryPhilosopher.GetOr([])
    }

    /** `state.get("used_args", [])` */
    function UsedArgs(): seq<string> reads this`usedArgs {
      usedArgs.GetOr([])
    }

    /** The entries the speaking nodes work on, read with their defaults. */
    function Read(): Entries
      reads this`round, this`transcript, this`usedArgs, this`memoryScientist, this`memoryPhilosopher
    {
      Entries(Round(), Transcript(), UsedArgs(), MemoryScientist(), MemoryPhilosopher())
    }

    /** The entries the speaking nodes update are all present. */
    predicate Initialised()
      reads this`round, this`transcript, this`usedArgs, this`memoryScientist, this`memoryPhilosopher
    {
      round.Some? && transcript.Some? && usedArgs.Some? && memoryScientist.Some? && memoryPhilosopher.Some?
    }

    /** `user_input_node`: refuses a blank topic; otherwise fills in the missing entries
        and leaves every present one as it was. */
    method UserInput() returns (r: Result<string, Error>)
      modifies this`round, this`transcript, this`usedArgs, this`memoryScientist, this`memoryPhilosopher
      ensures Strip(topic.GetOr("")) == [] ==>
        && r == Failure(NoTopicProvided)
        && round == old(round) && transcript == old(transcript) && usedArgs == old(usedArgs)
        && memoryScientist == old(memoryScientist) && memoryPhilosopher == old(memoryPhilosopher)
      ensures Strip(topic.GetOr("")) != [] ==>
        && r == Success(Strip(topic.value))
        && round == SetDefault(old(round), 0)
        && transcript == SetDefault(old(transcript), [])
        && usedArgs == SetDefault(old(usedArgs), [])
        && memoryScientist == SetDefault(old(memoryScientist), [])
        && memoryPhilosopher == SetDefault(old(memoryPhilosopher), [])
    {
      var t := Strip(topic.GetOr(""));
      if t == [] {
        return Failure(NoTopicProvided);
      }
      round := SetDefault(round, 0);
      transcript := SetDefault(transcript, []);
      usedArgs := SetDefault(usedArgs, []);
      memoryScientist := SetDefault(memoryScientist, []);
      memoryPhilosopher := SetDefault(memoryPhilosopher, []);
      r := Success(t);
    }

    /** `check_turn`: a turn may be taken only while the round counter is below 8. The expected
        agent is only logged; the parity of the round is not checked here. */
    function CheckTurn(expected: Agent): (r: Outcome<Error>)
      reads this
      ensures r.Fail? <==> Round() >= MaxRounds
      ensures r.Fail? ==> r.error == MaxRoundsReached
    {
      if Round() >= MaxRounds then Fail(MaxRoundsReached) else Pass
    }

    /** `mark_used`: records the normalised candidate after all earlier entries. */
    method MarkUsed(candidate: string)
      modifies this`usedArgs
      ensures usedArgs == Some(old(UsedArgs()) + [Normalize(candidate)])
      ensures HasRepeat(candidate, UsedArgs())
      ensures |UsedArgs()| == |old(UsedArgs())| + 1
    {
      usedArgs := Some(UsedArgs() + [Normalize(candidate)]);
    }

    /** `append_transcript`: raises the round counter by one and appends one entry carrying
        the new round, the agent and the text. */
    method AppendTranscript(agent: Agent, text: string)
      modifies this`transcript, this`round
      ensures round == Some(old(Round()) + 1)
      ensures transcript == Some(old(Transcript()) + [Turn(old(Round()) + 1, agent, text)])
      ensures old(|Transcript()| == Round()) ==> |Transcript()| == Round()
    {
      var t := Transcript();
      var r := Round() + 1;
      round := Some(r);
      transcript := Some(t + [Turn(r, agent, text)]);
    }

    /** `update_memory_for_agent`: one bullet for the speaker's own memory, the scientist's for
        "Scientist" and the philosopher's for any other name; the other memory is untouched. */
    method UpdateMemoryForAgent(agent: Agent, text: string)
      modifies this`memoryScientist, this`memoryPhilosopher
      ensures if agent == Scientist then
          memoryScientist == Some(old(MemoryScientist()) + [MakeBullet(text)]) && memoryPhilosopher == old(memoryPhilosopher)
        else
          memoryPhilosopher == Some(old(MemoryPhilosopher()) + [MakeBullet(text)]) && memoryScientist == old(memoryScientist)
    {
      var bullet := MakeBullet(text);
      if agent == Scientist {
        memoryScientist := Some(MemoryScientist() + [bullet]);
      } else {
        memoryPhilosopher := Some(MemoryPhilosopher() + [bullet]);
      }
    }

    /** The tail shared by both agent nodes: register the argument, commit it to the
        transcript and digest it into the speaker's memory. */
    method Commit(agent: Agent, arg: string)
      modifies this`round, this`transcript, this`usedArgs, this`memoryScientist, this`memoryPhilosopher
      ensures Read() == Spoken(old(Read()), agent, arg)
      ensures round.Some? && transcript.Some? && usedArgs.Some?
      ensures if agent == Scientist then memoryScientist.Some? && memoryPhilosopher == old(memoryPhilosopher)
              else memoryPhilosopher.Some? && memoryScientist == old(memoryScientist)
    {
      MarkUsed(arg);
      AppendTranscript(agent, arg);
      UpdateMemoryForAgent(agent, arg);
    }

    /** `agent_node_scientist` (agent `Scientist`) and `agent_node_philosopher` (agent
        `Philosopher`): check the turn, generate, guard against a repeat once, then register the
        argument, commit it to the transcript and digest it into the speaker's memory. */
    method AgentNode(agent: Agent, gen: Generator, pick: Generator) returns (r: Result<string, Error>)
      modifies this`round, this`transcript, this`usedArgs, this`memoryScientist, this`memoryPhilosopher
      ensures old(Round()) >= MaxRounds ==> r == Failure(MaxRoundsReached)
      ensures old(Round()) < MaxRounds && topic.None? ==> r == Failure(TopicKeyMissing)
      ensures r.Failure? ==> unchanged(this)
      ensures old(Round()) < MaxRounds && topic.Some? ==>
        && r == Success(TurnText(agent, topic.value, old(Round()) + 1, old(UsedArgs()), gen, pick))
        && Read() == Spoken(old(Read()), agent, r.value)
        && round.Some? && transcript.Some? && usedArgs.Some?
        && if agent == Scientist then memoryScientist.Some? && memoryPhilosopher == old(memoryPhilosopher)
           else memoryPhilosopher.Some? && memoryScientist == old(memoryScientist)
    {
      var ok := CheckTurn(agent);
      if ok.Fail? {
        return Failure(ok.error);
      }
      if topic.None? {
        return Failure(TopicKeyMissing);
      }
      var rnum := Round() + 1;
      var arg := Guarded(gen(agent, topic.value, rnum), UsedArgs(), Addendum(AddendumHead(agent), pick(agent, topic.value, rnum)));
      Commit(agent, arg);
      r := Success(arg);
    }

    /** `memory_node`: each rolling summary becomes the join of that speaker's last three
        bullets; the memories themselves are kept whole. */
    method MemoryNode()
      modifies this
      ensures unchanged(this`topic, this`round, this`transcript, this`usedArgs, this`memoryScientist,
        this`memoryPhilosopher, this`winner, this`judgeSummary, this`judgeJustification)
      ensures summaryScientist == Some(RollingSummary(MemoryScientist()))
      ensures summaryPhilosopher == Some(RollingSummary(MemoryPhilosopher()))
    {
      summaryScientist := Some(Join(Window(MemoryScientist()), SummarySeparator));
      summaryPhilosopher := Some(Join(Window(MemoryPhilosopher()), SummarySeparator));
    }

    /** `judge_node`: refuses a transcript shorter than 8; otherwise scores it, writes the
        verdict into the state and returns it. */
    method JudgeNode() returns (r: Result<Verdict, Error>)
      modifies this
      ensures unchanged(this`topic, this`round, this`transcript, this`usedArgs, this`memoryScientist,
        this`memoryPhilosopher, this`summaryScientist, this`summaryPhilosopher)
      ensures |Transcript()| < RequiredTurns ==>
        r == Failure(DebateIncomplete) && winner == old(winner)
        && judgeSummary == old(judgeSummary) && judgeJustification == old(judgeJustification)
      ensures |Transcript()| >= RequiredTurns ==>
        && r == Success(Decide(topic, Transcript(), MemoryScientist(), MemoryPhilosopher()))
        && winner == Some(r.value.winner)
        && judgeSummary == Some(r.value.summary)
        && judgeJustification == Some(r.value.justification)
    {
      var t := Transcript();
      if |t| < RequiredTurns {
        return Failure(DebateIncomplete);
      }
      var v := Judgement(topic, t, MemoryScientist(), MemoryPhilosopher());
      judgeSummary := Some(v.summary);
      winner := Some(v.winner);
      judgeJustification := Some(v.justification);
      r := Success(v);
    }
  }
}
