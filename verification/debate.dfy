/**
  What the two debate front ends share: the two agents, the two prompt
  templates, and a reference description of a run indexed by call number.

  A run alternates Optimist and Skeptic, one `generate` call per entry. The
  language model is a `Generator`: given the 0-based call number, the agent and
  the prompt, it returns the reply, or `None` when the call throws. The call
  number makes it as general as a scripted list of replies.
 */
module Debate {
  import opened Optional

  datatype Agent = Optimist | Skeptic

  /** The name on a transcript entry and in the other agent's prompt. */
  function Name(a: Agent): string
  {
    match a
    case Optimist => "Optimist"
    case Skeptic => "Skeptic"
  }

  function Other(a: Agent): Agent
  {
    match a
    case Optimist => Skeptic
    case Skeptic => Optimist
  }

  /** Who makes the i-th call (0-based): the Optimist opens every round. */
  function SpeakerAt(i: nat): Agent
  {
    if i % 2 == 0 then Optimist else Skeptic
  }

  /** Round `turn` (1-based) is calls 2 * turn - 2 and 2 * turn - 1. */
  lemma SpeakersOfRound(turn: nat)
    requires 1 <= turn
    ensures SpeakerAt(2 * (turn - 1)) == Optimist && SpeakerAt(2 * (turn - 1) + 1) == Skeptic
  {
  }

  /** One transcript entry, `{ agent, text }`. */
  datatype Entry = Entry(agent: Agent, text: string)

  /** The text of the latest entry, `""` before the first. */
  function LastText(entries: seq<Entry>): string
  {
    if entries == [] then [] else entries[|entries| - 1].text
  }

  /** One `generate` call: who was asked, and with what prompt. */
  datatype Call = Call(agent: Agent, prompt: string)

  type Generator = (nat, Agent, string) -> Option<string>

  /** Number of rounds of `for (let turn = 1; turn <= turns; turn++)`. */
  function RoundCount(turns: int): nat
  {
    if turns >= 1 then turns else 0
  }

  // ---------------------------------------------------------------------
  // Prompt templates

  /** `Discuss this topic: ${topic}. Introduce your perspective on it.` */
  function IntroducePrompt(topic: string): string
  {
    "Discuss this topic: " + topic + ". Introduce your perspective on it."
  }

  /** `The topic is: ${topic}. ${speaker} just said: "${said}". Respond to their points.` */
  function RespondPrompt(topic: string, speaker: string, said: string): string
  {
    "The topic is: " + topic + ". " + speaker + " just said: \"" + said + "\". Respond to their points."
  }

  /** Where the quoted reply starts inside a respond prompt. */
  function QuoteStart(topic: string, speaker: string): nat
  {
    |"The topic is: " + topic + ". " + speaker + " just said: \""|
  }

  /** A respond prompt quotes the reply literally, at a place fixed by topic and speaker. */
  lemma RespondQuotes(topic: string, speaker: string, said: string)
    ensures QuoteStart(topic, speaker) + |said| <= |RespondPrompt(topic, speaker, said)|
    ensures RespondPrompt(topic, speaker, said)[QuoteStart(topic, speaker)..QuoteStart(topic, speaker) + |said|] == said
  {
    var head := "The topic is: " + topic + ". " + speaker + " just said: \"";
    var tail := "\". Respond to their points.";
    assert RespondPrompt(topic, speaker, said) == head + said + tail;
  }

  /** So the quoted reply can be read back: equal prompts quote equal replies. */
  lemma RespondInjective(topic: string, speaker: string, said: string, said': string)
    requires RespondPrompt(topic, speaker, said) == RespondPrompt(topic, speaker, said')
    ensures said == said'
  {
    RespondQuotes(topic, speaker, said);
    RespondQuotes(topic, speaker, said');
  }

  /** The introduce template never coincides with a respond prompt. */
  lemma IntroduceIsNotRespond(topic: string, topic': string, speaker: string, said: string)
    ensures IntroducePrompt(topic) != RespondPrompt(topic', speaker, said)
  {
    assert IntroducePrompt(topic)[0] == 'D';
    assert RespondPrompt(topic', speaker, said)[0] == 'T';
  }

  // ---------------------------------------------------------------------
  // Reference description of a run

  /** The command-line runner and the browser page pick prompts differently. */
  datatype Variant = Cli | Ui

  /**
    The prompt of call i, given the replies before it. Both quote the reply just
    before, by the other agent. The command line introduces whenever that reply
    is empty (or there is none); the page introduces only on the very first call.
   */
  function PromptAt(v: Variant, topic: string, entries: seq<Entry>, i: nat): string
    requires i <= |entries|
  {
    var speaker := Name(Other(SpeakerAt(i)));
    match v
    case Cli =>
      var previous := if i == 0 then [] else entries[i - 1].text;
      if previous == [] then IntroducePrompt(topic) else RespondPrompt(topic, speaker, previous)
    case Ui =>
      if i == 0 then IntroducePrompt(topic) else RespondPrompt(topic, speaker, entries[i - 1].text)
  }

  /** The prompt depends only on the entries before the call. */
  lemma PromptAtPrefix(v: Variant, topic: string, entries: seq<Entry>, entries': seq<Entry>, i: nat)
    requires i <= |entries| && i <= |entries'| && entries[..i] == entries'[..i]
    ensures PromptAt(v, topic, entries, i) == PromptAt(v, topic, entries', i)
  {
    if i > 0 {
      assert entries[i - 1] == entries[..i][i - 1] == entries'[..i][i - 1] == entries'[i - 1];
    }
  }

  /** Call i went to the right agent with the prescribed prompt, and entry i is its reply. */
  predicate Answered(v: Variant, topic: string, gen: Generator, calls: seq<Call>, entries: seq<Entry>, i: nat)
    requires i < |calls| && i < |entries|
  {
    && entries[i].agent == SpeakerAt(i)
    && calls[i] == Call(SpeakerAt(i), PromptAt(v, topic, entries, i))
    && gen(i, SpeakerAt(i), calls[i].prompt) == Some(entries[i].text)
  }

  lemma AnsweredAt(v: Variant, topic: string, gen: Generator, calls: seq<Call>, entries: seq<Entry>, failed: bool, i: nat)
    requires Progress(v, topic, gen, calls, entries, failed) && i < |entries|
    ensures calls[i] == Call(SpeakerAt(i), PromptAt(v, topic, entries, i))
    ensures gen(i, SpeakerAt(i), calls[i].prompt) == Some(entries[i].text)
  {
    assert Answered(v, topic, gen, calls, entries, i);
  }

  /** Every call of a run, answered or not, went out as prescribed. */
  lemma CallPrompt(v: Variant, topic: string, gen: Generator, calls: seq<Call>, entries: seq<Entry>, failed: bool, i: nat)
    requires Progress(v, topic, gen, calls, entries, failed) && i < |calls|
    ensures i <= |entries|
    ensures calls[i] == Call(SpeakerAt(i), PromptAt(v, topic, entries, i))
  {
    if i < |entries| {
      AnsweredAt(v, topic, gen, calls, entries, failed, i);
    }
  }

  /** Call k (= the number of entries) went out as prescribed and threw. */
  predicate Threw(v: Variant, topic: string, gen: Generator, calls: seq<Call>, entries: seq<Entry>)
  {
    var k := |entries|;
    && |calls| == k + 1
    && calls[k] == Call(SpeakerAt(k), PromptAt(v, topic, entries, k))
    && gen(k, SpeakerAt(k), calls[k].prompt).None?
  }

  /** The calls and entries of a run cut short by a throw, or of one still going. */
  predicate Progress(v: Variant, topic: string, gen: Generator, calls: seq<Call>, entries: seq<Entry>, failed: bool)
  {
    && |entries| <= |calls|
    && (forall i :: 0 <= i < |entries| ==> Answered(v, topic, gen, calls, entries, i))
    && (if failed then Threw(v, topic, gen, calls, entries) else |calls| == |entries|)
  }

  /** A whole run of `rounds` rounds: complete, or stopped by the first call that threw. */
  predicate IsRun(v: Variant, topic: string, rounds: nat, gen: Generator, calls: seq<Call>, entries: seq<Entry>, failed: bool)
  {
    && Progress(v, topic, gen, calls, entries, failed)
    && (if failed then |entries| < 2 * rounds else |entries| == 2 * rounds)
  }

  /** Agents alternate, Optimist first. */
  predicate Alternates(entries: seq<Entry>)
  {
    forall i :: 0 <= i < |entries| ==> entries[i].agent == SpeakerAt(i)
  }

  /** Extending a run by one answered call. */
  lemma ProgressSnoc(v: Variant, topic: string, gen: Generator, calls: seq<Call>, entries: seq<Entry>, text: string)
    requires Progress(v, topic, gen, calls, entries, false)
    requires gen(|entries|, SpeakerAt(|entries|), PromptAt(v, topic, entries, |entries|)) == Some(text)
    ensures Progress(v, topic, gen,
                     calls + [Call(SpeakerAt(|entries|), PromptAt(v, topic, entries, |entries|))],
                     entries + [Entry(SpeakerAt(|entries|), text)], false)
  {
    var k := |entries|;
    var calls' := calls + [Call(SpeakerAt(k), PromptAt(v, topic, entries, k))];
    var entries' := entries + [Entry(SpeakerAt(k), text)];
    forall i | 0 <= i < |entries'|
      ensures Answered(v, topic, gen, calls', entries', i)
    {
      assert entries'[..i] == entries[..i] || i == k;
      if i < k {
        assert entries'[..i] == entries[..i];
        PromptAtPrefix(v, topic, entries, entries', i);
        assert Answered(v, topic, gen, calls, entries, i);
      } else {
        assert entries'[..k] == entries[..k];
        PromptAtPrefix(v, topic, entries, entries', k);
      }
    }
  }

  /** Ending a run with a call that threw. */
  lemma ProgressThrow(v: Variant, topic: string, gen: Generator, calls: seq<Call>, entries: seq<Entry>)
    requires Progress(v, topic, gen, calls, entries, false)
    requires gen(|entries|, SpeakerAt(|entries|), PromptAt(v, topic, entries, |entries|)).None?
    ensures Progress(v, topic, gen, calls + [Call(SpeakerAt(|entries|), PromptAt(v, topic, entries, |entries|))], entries, true)
  {
    var calls' := calls + [Call(SpeakerAt(|entries|), PromptAt(v, topic, entries, |entries|))];
    forall i | 0 <= i < |entries|
      ensures Answered(v, topic, gen, calls', entries, i)
    {
      assert Answered(v, topic, gen, calls, entries, i);
    }
  }

  /** Two runs against the same generator agree entry by entry as far as both go. */
  lemma {:induction false} ProgressAgree(v: Variant, topic: string, gen: Generator,
                                         calls: seq<Call>, entries: seq<Entry>, failed: bool,
                                         calls': seq<Call>, entries': seq<Entry>, failed': bool, n: nat)
    requires Progress(v, topic, gen, calls, entries, failed)
    requires Progress(v, topic, gen, calls', entries', failed')
    requires n <= |entries| && n <= |entries'|
    ensures entries[..n] == entries'[..n]
    decreases n
  {
    if n > 0 {
      ProgressAgree(v, topic, gen, calls, entries, failed, calls', entries', failed', n - 1);
      var i := n - 1;
      PromptAtPrefix(v, topic, entries, entries', i);
      assert Answered(v, topic, gen, calls, entries, i);
      assert Answered(v, topic, gen, calls', entries', i);
      assert entries[i] == entries'[i];
      assert entries[..n] == entries[..i] + [entries[i]];
      assert entries'[..n] == entries'[..i] + [entries'[i]];
    }
  }

  /** A run that threw at call k has exactly k entries, so no run can answer call k. */
  lemma {:induction false} ThrowIsFinal(v: Variant, topic: string, gen: Generator,
                                        calls: seq<Call>, entries: seq<Entry>,
                                        calls': seq<Call>, entries': seq<Entry>, failed': bool)
    requires Progress(v, topic, gen, calls, entries, true)
    requires Progress(v, topic, gen, calls', entries', failed')
    ensures |entries'| <= |entries|
  {
    var k := |entries|;
    if |entries'| > k {
      ProgressAgree(v, topic, gen, calls, entries, true, calls', entries', failed', k);
      assert entries[..k] == entries;
      PromptAtPrefix(v, topic, entries, entries', k);
      AnsweredAt(v, topic, gen, calls', entries', failed', k);
      assert false;
    }
  }

  /** The generator determines the run: there is at most one for a topic, round count and variant. */
  lemma RunUnique(v: Variant, topic: string, rounds: nat, gen: Generator,
                  calls: seq<Call>, entries: seq<Entry>, failed: bool,
                  calls': seq<Call>, entries': seq<Entry>, failed': bool)
    requires IsRun(v, topic, rounds, gen, calls, entries, failed)
    requires IsRun(v, topic, rounds, gen, calls', entries', failed')
    ensures entries == entries' && failed == failed' && calls == calls'
  {
    if failed {
      ThrowIsFinal(v, topic, gen, calls, entries, calls', entries', failed');
    }
    if failed' {
      ThrowIsFinal(v, topic, gen, calls', entries', calls, entries, failed);
    }
    assert |entries| == |entries'|;
    var n := |entries|;
    ProgressAgree(v, topic, gen, calls, entries, failed, calls', entries', failed', n);
    assert entries == entries[..n] && entries' == entries'[..n];
    assert failed == failed';
    assert |calls| == |calls'|;
    forall i | 0 <= i < |calls|
      ensures calls[i] == calls'[i]
    {
      if i < n {
        assert Answered(v, topic, gen, calls, entries, i);
        assert Answered(v, topic, gen, calls', entries', i);
      }
    }
  }

  /** A run alternates agents, and a complete one holds two entries per round. */
  lemma RunShape(v: Variant, topic: string, rounds: nat, gen: Generator, calls: seq<Call>, entries: seq<Entry>, failed: bool)
    requires IsRun(v, topic, rounds, gen, calls, entries, failed)
    ensures Alternates(entries)
    ensures !failed ==> |entries| == 2 * rounds && |calls| == 2 * rounds
    ensures failed ==> |calls| == |entries| + 1 <= 2 * rounds
  {
    forall i | 0 <= i < |entries|
      ensures entries[i].agent == SpeakerAt(i)
    {
      assert Answered(v, topic, gen, calls, entries, i);
    }
  }

}
