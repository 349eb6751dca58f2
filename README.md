# Structured debate orchestration — a Dafny model

This project models the bookkeeping core of a two-speaker debate runner. The model and its
proofs are in Dafny.

- A shared record holds the topic, a round counter, the transcript, one bullet memory per
  speaker, a list of used arguments, two rolling summaries and the verdict fields.
- `user_input_node` checks the topic and fills in missing entries.
- Two agent nodes take turns. Each checks the turn, generates an argument, guards it against
  repeats, registers it, commits it to the transcript and digests it into the speaker's memory.
- `memory_node` refreshes the rolling summaries.
- `judge_node` scores the finished transcript and writes the verdict.
- The `run_debate` loop alternates the speakers by the parity of the next round for eight
  rounds, then judges once.

Modules, in dependency order:

- `Values`: optional entries, results, and `dict.setdefault`.
- `Text`: the Python string operations used: `strip`, `lower`, `in`, `split`, `join`,
  slicing and `str(int)`.
- `Turns`: the transcript entry and the two speakers.
- `Guard`: the normalised form `strip().lower()`, `has_repeat`, and the single addendum.
- `Memory`: `make_bullet_from_text` and the three-bullet rolling window.
- `Judge`: keyword tiers, the distinct-bullet bonus, the winner, the summary and the
  justification.
- `Nodes`: the state as a class `DebateState` whose methods update its fields in place.
  These are the nodes and the helpers they chain.
- `Scheduler`: the `while` loop of `run_debate`.

The loop is specified against a reference definition of the debate:

- A `Speech` gives what the speaker of round `n` says, given the arguments used so far.
  `Say(topic, gen, pick)` is the one the nodes produce.
- `Debate(say, n)` is the first `n` turns.
- `Faithful(say, t)` says that each turn of `t` is the one its prefix yields.
- `Replay(t)` is what committing the turns one by one leaves in the record.
- `Digest(t)` is the same thing stated directly: the counter, the transcript, every text
  normalised, and one bullet per turn in the memory of whoever spoke it.

Each loop pass keeps "the record is the replay of a faithful transcript". The lemmas show that
such a transcript is the debate itself, is scheduled by parity, gives each speaker four turns,
and that its replay equals its digest.

## Model

| member | source | states |
|---|---|---|
| Values.SetDefault | nodes.py:122-127 | an absent entry is filled with the default; a present entry is returned unchanged and never overwritten |
| Text.TrimLeftSpec | nodes.py:118 | `lstrip` keeps a suffix of its input, removes only whitespace and stops at the first non-space character |
| Text.TrimRightSpec | nodes.py:118 | `rstrip` keeps a prefix of its input, removes only whitespace and stops at the last non-space character |
| Text.StripSpec | nodes.py:118-119 | `strip` leaves no whitespace at either end; it gives the empty string exactly when the input is all whitespace, which is the condition for `if not topic` |
| Text.StripKeepsChars | nodes.py:61 | every character `strip` keeps occurs in its input |
| Text.LowerSpec | nodes.py:35 | `lower` keeps the length and maps each character on its own |
| Text.ContainsIff | nodes.py:187 | the substring test `k in txt` holds exactly when `k` occurs at some offset of `txt` |
| Text.SplitAvoids | nodes.py:61 | no piece of `text.split(".")` contains the separator |
| Text.SplitJoin | nodes.py:61 | joining the pieces of a split with the separator gives the text back |
| Text.NatToStringDigits | nodes.py:217 | a score written with `str` consists of decimal digits only |
| Text.DecimalRoundTrip | nodes.py:217 | reading back the digits `str` writes for a score gives the same score |
| Turns.Name | nodes.py:51 | the transcribed name is "Scientist" exactly for the scientist |
| Guard.Addendum | nodes.py:139 | the addendum is `head + sub + ")"`: its length is theirs plus one and it ends in a non-space `)` |
| Guard.GuardedSpec | nodes.py:137-139 | `Guarded`, the repeat check of an agent node: a fresh argument is committed as generated; a repeated one keeps its text as a prefix, gains the addendum once as a suffix, and its normalised form becomes strictly longer |
| Guard.NormalizeGrows | nodes.py:137-140 | appending a non-empty text that ends in a non-space character lengthens the normalised form |
| Guard.NormalizeIdempotent | nodes.py:33-40 | `Normalize` (`strip().lower()`, shared by `has_repeat` and `mark_used`): normalising twice equals normalising once, so a registered argument is a repeat of itself |
| Guard.NormalizeIgnoresPadding | nodes.py:35 | whitespace padding on either side does not change the normalised form |
| Guard.RepeatModuloPadding | nodes.py:33-36 | `HasRepeat` (`has_repeat`: the normalised candidate is among the used arguments) ignores surrounding whitespace and gives the same answer for a candidate and its normalised form |
| Memory.StripNonEmptyTrimmed | nodes.py:61 | every kept sentence is non-empty and has no whitespace at either end |
| Memory.FragmentsHaveNoDot | nodes.py:61 | no kept sentence contains a "." |
| Memory.NoFragmentsIff | nodes.py:61-63 | the fallback `text[:120]` is taken exactly when the text holds only whitespace and dots |
| Memory.MakeBulletSpec | nodes.py:58-67 | `MakeBullet` (`make_bullet_from_text`): a bullet is at most 250 characters; without sentences it is `text[:120]`; otherwise it is the first min(n, 250) characters of the lead, where the lead is the first sentence followed by `". "` and the second when there is one and n is its length, and the bullet is not blank; it is empty only for the empty text |
| Memory.WindowIsRecentSuffix | nodes.py:168-169 | the window `RollingSummary` joins, `mem[-3:]`, holds min(3, n) bullets, the most recent ones, in chronological order, after the older ones that stay stored |
| Memory.WindowSlides | nodes.py:168-169 | a new bullet enters the window last; once three are held, the oldest leaves |
| Judge.AnyInIff | nodes.py:187 | `any(k in txt for k in keys)` holds exactly when some keyword occurs in the text |
| Judge.TierPoints | nodes.py:187-195 | a turn earns 0 to 3 points: 2 exactly when some primary keyword occurs in the lower-cased text, plus 1 exactly when some secondary one does |
| Judge.PointsBound | nodes.py:184-195 | each turn is credited to one side only, worth at most 3 points to it |
| Judge.KeywordScores | nodes.py:182-195 | the keyword loop gives the scientist the points of its own turns and the philosopher the points of every other turn |
| Judge.DistinctCountAppend | nodes.py:198-199 | a bullet raises the distinct-bullet bonus exactly when it was not already stored |
| Judge.DistinctCountBound | nodes.py:198-199 | the bonus is at most the number of bullets and at least 1 when there are any |
| Judge.Winner | nodes.py:210-215 | "Scientist" exactly when its score is strictly higher, "Philosopher" exactly when the other score is, "Tie" exactly on equal scores |
| Judge.WinnerSymmetric | nodes.py:210-215 | swapping the two scores swaps the two winners and keeps a tie |
| Judge.SummaryShape | nodes.py:202-207 | the summary lines are the topic line, the header, and one `R{round} {agent}: {text}` line per turn in transcript order; the summary starts with "Topic: " |
| Judge.SummaryText | nodes.py:202-207 | the summary loop builds exactly those lines joined by newlines |
| Judge.JustificationRoundTrip | nodes.py:217 | both scores and the winner can be read back out of the justification |
| Judge.Judgement | nodes.py:182-219 | the scoring, summary and verdict loop computes exactly `Decide`, a function of the topic, the transcript and the two memories alone: `Winner` of `ScientistScore` and `PhilosopherScore`, their `Justification`, and the `Summary` |
| Nodes.DebateState.constructor | main.py:33 | a fresh state has no entries |
| Nodes.DebateState.UserInput | nodes.py:116-128 | refuses a topic that is absent or blank after `strip` and then changes nothing; otherwise returns the stripped topic and fills in each missing entry with its default, leaving present ones as they were |
| Nodes.DebateState.CheckTurn | nodes.py:23-29 | a turn is refused exactly when the counter is 8 or more |
| Nodes.DebateState.MarkUsed | nodes.py:38-40 | the normalised candidate is appended after the unchanged earlier entries; the list grows by one and the candidate is now a repeat |
| Nodes.DebateState.AppendTranscript | nodes.py:42-46 | the counter rises by one; one entry with the new round, the agent and the text is appended after the unchanged earlier ones; "length equals counter" is preserved |
| Nodes.DebateState.UpdateMemoryForAgent | nodes.py:48-56 | exactly one bullet of the text is appended to the speaker's own memory; the other memory is untouched |
| Nodes.DebateState.Commit | nodes.py:140-142 | the tail of an agent node leaves exactly `Spoken` of the old entries: used list +1 (the normalised text), counter +1, transcript +1 (the new round, agent and text), speaker memory +1 (its bullet), the other memory unchanged |
| Nodes.DebateState.AgentNode | nodes.py:130-160 | refuses at 8 or more rounds or a missing topic and then changes nothing; otherwise commits `TurnText`: the generator's argument for round counter+1, passed through `Guarded` against the used list with the speaker's addendum |
| Nodes.DebateState.MemoryNode | nodes.py:162-172 | each summary becomes `RollingSummary` of that speaker's memory: the `"; "` join of the last min(3, n) bullets of that speaker; nothing else changes |
| Nodes.DebateState.JudgeNode | nodes.py:174-225 | refuses a transcript shorter than 8 and then changes nothing; otherwise returns `Decide` of the topic, transcript and memories and writes its winner, summary and justification; nothing else changes |
| Scheduler.FaithfulIsDebate | main.py:46-61 | a transcript is faithful exactly when it is the debate's first n turns, in both directions |
| Scheduler.Replay | nodes.py:42-46 | committing n turns leaves the counter at n |
| Scheduler.DigestSnoc | nodes.py:140-142 | `Spoken`, committing the next turn, takes the digest of a transcript to the digest of the longer transcript |
| Scheduler.ReplayDigest | nodes.py:38-56 | committing turns numbered 1, 2, … leaves that transcript, every text normalised, and one bullet per turn in its speaker's memory |
| Scheduler.FaithfulSnoc | main.py:46-58 | adding the turn the next speaker says keeps a transcript faithful |
| Scheduler.Advance | main.py:47-58 | one speaking turn on the replay of a faithful transcript adds exactly the debate's next turn and leaves the replay of the longer transcript |
| Scheduler.FaithfulScheduled | main.py:47-58 | in a faithful transcript entry k is round k+1, spoken by `SpeakerFor(k+1)` (`next_round % 2 == 1`): the scientist when k+1 is odd and the philosopher when it is even |
| Scheduler.ScheduledCounts | main.py:49-58 | a scheduled transcript gives the scientist (n+1)/2 turns and the philosopher n/2 |
| Scheduler.ScheduledBullets | main.py:49-58 | a scheduled transcript puts (n+1)/2 bullets in the scientist's memory and n/2 in the philosopher's |
| Scheduler.FinishedDebate | main.py:42-61 | a faithful 8-turn transcript is the debate itself; it alternates starting with the scientist, gives each speaker 4 turns and 4 bullets, and its replay is its digest |
| Scheduler.AppendTurn | nodes.py:38-56 | one more turn appends one normalised argument, and one bullet to the memory of whoever spoke it |
| Scheduler.Speak | main.py:47-58 | the speaker is `SpeakerFor` the next round: the scientist for an odd next round and the philosopher for an even one; the turn cannot be refused below 8 rounds; it commits that speaker's `TurnText`; the summaries and verdict fields are unchanged |
| Scheduler.TakeTurn | main.py:47-58 | one pass adds the debate's next turn; the state stays the replay of a faithful transcript; the summaries and verdict fields are unchanged |
| Scheduler.PlayRounds | main.py:44-65 | starting from 0 the loop makes exactly 8 passes, each followed by the memory node; it ends with a faithful 8-turn transcript, its replay in the state, fresh summaries and no verdict |
| Scheduler.RunDebate | main.py:33-68 | a blank topic is refused; otherwise the state holds a faithful 8-turn transcript, its used list and memories, the summaries, and the verdict the judge computes once from them |

## Left out

- `agent_generate_argument` and `pick_subexample` are left out. They seed Python's `random`
  with the per-process salted `hash(topic)`, so both become function parameters `gen` and
  `pick` of the agent, the topic and the round. That is everything the random state depends on
  after seeding.
- The argument templates are not modelled. They only feed the generator.
- Print, sleep, logging and graph building are dropped. This covers `logger.info`, `print`,
  `time.sleep`, `json.dumps`, argument parsing, `input()`, log files, the graph builder and
  the diagram rendering. None of them is consulted by the core.
- RunDebate takes the topic text as a parameter. The command line and the prompt that supply
  it are not modelled.
- The node return dictionaries are not modelled. `{"status": "ok", "topic": …}`, `{"text": …}`
  and the judge's dictionary become `Result` values. `memory_node`'s `{"ok": True}` is dropped.
- Raised exceptions become `Failure` values or a `Fail` outcome. Every raise in the core
  happens before any mutation, so the state is unchanged on those paths.
- A speaker is a two-valued datatype. The nodes are only ever called with "Scientist" and
  "Philosopher", and "any other name" in `update_memory_for_agent` and `judge_node` collapses
  to the philosopher.
- The two agent node functions are one method, `AgentNode(agent, …)`. They differ only in the
  name and the addendum label, which `AddendumHead` supplies.
- `lower()` is modelled on ASCII letters only. Python's full Unicode case mapping is not
  modelled. `strip()` uses Python's full whitespace set.
- Aliasing between the lists stored in the state and outside references is not modelled.
  `setdefault(...).append(...)` becomes reassigning the field.
- `pick_subexample` is evaluated before the repeat check. The source calls it only on a repeat.
  Because `pick` is a pure parameter, the committed text is the same.
- `has_repeat` builds `set(used_args)`. Membership in that set is membership in the list, so
  the model tests the list directly.
- Behaviours of the code kept as written:
  - The bullet falls back to `text[:120]` when no non-blank sentence remains, not when the
    text has no terminator. The caps are 120 for that fallback and 250 otherwise.
  - The judge accepts any transcript of 8 or more entries, not exactly the configured total.
  - The verdict fields are overwritten on each `judge_node` call, not written once.
  - The used arguments are a list that may hold duplicates, not a set.
  - A primary tier earns 2 points once per turn when any keyword occurs, not per category.
  - `check_turn` checks only the counter, never the expected speaker's parity.
  - The topic is stored as given. Only `user_input_node`'s return value is stripped.
  - The verdict has no separate score fields; the scores appear inside the justification.
