/** One committed turn of the debate and its two speakers. */
module Turns {

  /** The two speakers. The nodes are only ever called with these two names. */
  datatype Agent = Scientist | Philosopher

  /** The name a speaker is logged and transcribed under. */
  function Name(a: Agent): (s: string)
    ensures s == "Scientist" <==> a == Scientist
  {
    match a
    case Scientist => "Scientist"
    case Philosopher => "Philosopher"
  }

  /** A transcript entry `{"round": r, "agent": a, "text": t}`; never changed once appended. */
  datatype Turn = Turn(round: int, agent: Agent, text: string)

  /** How many entries of the transcript `agent` spoke. */
  function CountAgent(t: seq<Turn>, agent: Agent): (n: nat)
    ensures n <= |t|
  {
    if t == [] then 0
    else CountAgent(t[..|t| - 1], agent) + (if t[|t| - 1].agent == agent then 1 else 0)
  }
}
