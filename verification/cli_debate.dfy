/**
  The command-line debate: `processTurn` and `runDebate`.

  Each turn builds a prompt from the other agent's last reply, asks the agent to
  generate, shows the reply wrapped at 80 columns in a note, and returns the
  reply itself. `runDebate` runs `turns` rounds, Optimist then Skeptic, and
  returns the transcript. A throwing `generate` propagates out of `runDebate`,
  so nothing is returned; the notes already shown stay on the terminal.
  Speech, the recorder and the spinner are not part of this model.
 */
module CliDebate {
  import opened Optional
  import opened Debate
  import Wrap
  import Strings

  /** The width passed to `formatText` for every note. */
  const NoteWidth: int := 80

  /** The outcome of one `processTurn`: the call it made, and the reply with the note shown for it. */
  datatype Turn = Threw(call: Call) | Spoke(call: Call, text: string, note: string)

  function ProcessTurn(agent: Agent, otherAgentName: string, topic: string, previousResponse: string,
                       gen: Generator, index: nat): (t: Turn)
    ensures t.call.agent == agent
    ensures t.call.prompt == IntroducePrompt(topic) <==> previousResponse == []
    ensures previousResponse != [] ==> t.call.prompt == RespondPrompt(topic, otherAgentName, previousResponse)
    ensures t.Spoke? <==> gen(index, agent, t.call.prompt).Some?
    ensures t.Spoke? ==> Some(t.text) == gen(index, agent, t.call.prompt)
    ensures t.Spoke? ==> Wrap.AllLinesFit(t.note, NoteWidth)
  {
    var prompt :=
      if previousResponse == [] then IntroducePrompt(topic)
      else RespondPrompt(topic, otherAgentName, previousResponse);
    IntroduceIsNotRespond(topic, topic, otherAgentName, previousResponse);
    match gen(index, agent, prompt)
    case None => Threw(Call(agent, prompt))
    case Some(text) => Spoke(Call(agent, prompt), text, Wrap.FormatText(text, NoteWidth))
  }

  /**
    The note only re-wraps the reply that `processTurn` returns: for a
    well-spaced reply without newlines, turning the note's newlines back into
    spaces gives the reply.
   */
  lemma NoteOnlyRewraps(agent: Agent, otherAgentName: string, topic: string, previousResponse: string,
                        gen: Generator, index: nat)
    requires ProcessTurn(agent, otherAgentName, topic, previousResponse, gen, index).Spoke?
    requires Wrap.WellSpaced(ProcessTurn(agent, otherAgentName, topic, previousResponse, gen, index).text)
    requires '\n' !in ProcessTurn(agent, otherAgentName, topic, previousResponse, gen, index).text
    ensures var t := ProcessTurn(agent, otherAgentName, topic, previousResponse, gen, index);
      Strings.Replace(t.note, '\n', ' ') == t.text
  {
    var t := ProcessTurn(agent, otherAgentName, topic, previousResponse, gen, index);
    Wrap.FormatTextRoundTrip(t.text, NoteWidth);
  }

  /** The local state of `runDebate`: the calls made, the notes shown and `responses`. */
  datatype State = State(calls: seq<Call>, notes: seq<string>, responses: seq<Entry>, failed: bool)

  /** Each shown note is the wrapped reply of the matching entry. */
  predicate NotesMatch(notes: seq<string>, responses: seq<Entry>)
  {
    && |notes| == |responses|
    && forall i :: 0 <= i < |responses| ==> notes[i] == Wrap.FormatText(responses[i].text, NoteWidth)
  }

  lemma NotesMatchSnoc(notes: seq<string>, responses: seq<Entry>, e: Entry)
    requires NotesMatch(notes, responses)
    ensures NotesMatch(notes + [Wrap.FormatText(e.text, NoteWidth)], responses + [e])
  {
    var notes', responses' := notes + [Wrap.FormatText(e.text, NoteWidth)], responses + [e];
    forall i | 0 <= i < |responses'|
      ensures notes'[i] == Wrap.FormatText(responses'[i].text, NoteWidth)
    {
      if i < |responses| {
        assert notes'[i] == notes[i] && responses'[i] == responses[i];
      }
    }
  }

  predicate Good(topic: string, gen: Generator, s: State)
  {
    Progress(Cli, topic, gen, s.calls, s.responses, s.failed) && NotesMatch(s.notes, s.responses)
  }


  /** One `processTurn` inside the loop, its reply pushed onto `responses`. */
  function TakeTurn(agent: Agent, otherAgentName: string, topic: string, previousResponse: string,
                    s: State, gen: Generator): (r: State)
    requires Good(topic, gen, s) && !s.failed
    requires agent == SpeakerAt(|s.responses|) && otherAgentName == Name(Other(agent))
    requires previousResponse == LastText(s.responses)
    ensures Good(topic, gen, r)
    ensures r.failed ==> r.responses == s.responses
    ensures !r.failed ==> |r.responses| == |s.responses| + 1
  {
    var k := |s.responses|;
    var t := ProcessTurn(agent, otherAgentName, topic, previousResponse, gen, |s.calls|);
    assert t.call == Call(SpeakerAt(k), PromptAt(Cli, topic, s.responses, k));
    match t
    case Threw(c) =>
      ProgressThrow(Cli, topic, gen, s.calls, s.responses);
      s.(calls := s.calls + [c], failed := true)
    case Spoke(c, text, note) =>
      ProgressSnoc(Cli, topic, gen, s.calls, s.responses, text);
      NotesMatchSnoc(s.notes, s.responses, Entry(agent, text));
      State(s.calls + [c], s.notes + [note], s.responses + [Entry(agent, text)], false)
  }

  /** Round `turn` of the loop: the Optimist answers the Skeptic, then the Skeptic the Optimist. */
  function Round(topic: string, turn: nat, skepticResponse: string, s: State, gen: Generator): (r: State)
    requires Good(topic, gen, s) && !s.failed
    requires 1 <= turn && |s.responses| == 2 * (turn - 1) && skepticResponse == LastText(s.responses)
    ensures Good(topic, gen, r)
    ensures if r.failed then |r.responses| < 2 * turn else |r.responses| == 2 * turn
  {
    SpeakersOfRound(turn);
    var s1 := TakeTurn(Optimist, "Skeptic", topic, skepticResponse, s, gen);
    if s1.failed then s1
    else
      var optimistResponse := LastText(s1.responses);
      var s2 := TakeTurn(Skeptic, "Optimist", topic, optimistResponse, s1, gen);
      s2
  }

  /** The loop `for (let turn = ...; turn <= turns; turn++)`, from round `turn` on. */
  function Loop(topic: string, turn: nat, turns: int, skepticResponse: string, s: State, gen: Generator): (r: State)
    requires Good(topic, gen, s) && !s.failed
    requires 1 <= turn <= RoundCount(turns) + 1
    requires |s.responses| == 2 * (turn - 1) && skepticResponse == LastText(s.responses)
    ensures Good(topic, gen, r)
    ensures if r.failed then |r.responses| < 2 * RoundCount(turns) else |r.responses| == 2 * RoundCount(turns)
    decreases RoundCount(turns) + 1 - turn
  {
    if turn > turns then s
    else
      var s2 := Round(topic, turn, skepticResponse, s, gen);
      if s2.failed then s2
      else
        var r := Loop(topic, turn + 1, turns, LastText(s2.responses), s2, gen);
        r
  }

  /** What a call of `runDebate` leaves behind. */
  datatype Outcome = Outcome(calls: seq<Call>, notes: seq<string>, responses: seq<Entry>, result: Option<seq<Entry>>)

  /**
    `runDebate(topic, turns)`: the run is the unique one the reference describes;
    it returns its transcript unless a call threw, and every note shown is the
    wrapped text of its entry.
   */
  function RunDebate(topic: string, turns: int, gen: Generator): (r: Outcome)
    ensures IsRun(Cli, topic, RoundCount(turns), gen, r.calls, r.responses, r.result.None?)
    ensures r.result.Some? ==> r.result.value == r.responses
    ensures NotesMatch(r.notes, r.responses)
  {
    var s := Loop(topic, 1, turns, [], State([], [], [], false), gen);
    Outcome(s.calls, s.notes, s.responses, if s.failed then None else Some(s.responses))
  }

  /** A debate that completes returns two alternating entries per round, and none for `turns < 1`. */
  lemma RunDebateShape(topic: string, turns: int, gen: Generator)
    ensures var r := RunDebate(topic, turns, gen);
      r.result.Some? ==> |r.result.value| == 2 * RoundCount(turns) && Alternates(r.result.value)
    ensures turns < 1 ==> RunDebate(topic, turns, gen).result == Some([])
    ensures turns < 1 ==> RunDebate(topic, turns, gen).calls == []
  {
    var r := RunDebate(topic, turns, gen);
    RunShape(Cli, topic, RoundCount(turns), gen, r.calls, r.responses, r.result.None?);
  }

  /**
    The prompt rule, call by call: call i uses the introduce template exactly when
    the reply before it is empty or there is none, and otherwise quotes that reply,
    which is the other agent's latest (the Skeptic's previous round for the
    Optimist, the Optimist's same round for the Skeptic).
   */
  lemma RunDebatePrompts(topic: string, turns: int, gen: Generator, i: nat)
    requires i < |RunDebate(topic, turns, gen).calls|
    ensures var r := RunDebate(topic, turns, gen);
      var previous := if i == 0 then [] else r.responses[i - 1].text;
      && r.calls[i].agent == SpeakerAt(i)
      && (r.calls[i].prompt == IntroducePrompt(topic) <==> previous == [])
      && (previous != [] ==> r.calls[i].prompt == RespondPrompt(topic, Name(Other(SpeakerAt(i))), previous))
  {
    var r := RunDebate(topic, turns, gen);
    CallPrompt(Cli, topic, gen, r.calls, r.responses, r.result.None?, i);
    var previous := if i == 0 then [] else r.responses[i - 1].text;
    IntroduceIsNotRespond(topic, topic, Name(Other(SpeakerAt(i))), previous);
  }

  /** The transcript holds the generated replies unchanged: entry i is exactly the reply to call i. */
  lemma RunDebateKeepsReplies(topic: string, turns: int, gen: Generator, i: nat)
    requires i < |RunDebate(topic, turns, gen).responses|
    ensures var r := RunDebate(topic, turns, gen);
      gen(i, r.calls[i].agent, r.calls[i].prompt) == Some(r.responses[i].text)
  {
    var r := RunDebate(topic, turns, gen);
    AnsweredAt(Cli, topic, gen, r.calls, r.responses, r.result.None?, i);
  }

  /** A model that answers "A1" to the first call and "B1" to every other. */
  function Scripted(k: nat, a: Agent, p: string): Option<string>
  {
    if k == 0 then Some("A1") else Some("B1")
  }

  /** One round on "Climate change": the Optimist introduces, the Skeptic quotes it, and both replies come back in order. */
  lemma RunDebateExample()
    ensures var r := RunDebate("Climate change", 1, Scripted);
      && r.result == Some([Entry(Optimist, "A1"), Entry(Skeptic, "B1")])
      && r.calls == [Call(Optimist, IntroducePrompt("Climate change")),
                     Call(Skeptic, RespondPrompt("Climate change", "Optimist", "A1"))]
  {
    var r := RunDebate("Climate change", 1, Scripted);
    assert r.result.Some?;
    RunDebateShape("Climate change", 1, Scripted);
    RunDebateKeepsReplies("Climate change", 1, Scripted, 0);
    RunDebateKeepsReplies("Climate change", 1, Scripted, 1);
    assert |r.responses| == 2 && |r.calls| == 2;
    assert r.responses[0] == Entry(Optimist, "A1");
    assert r.responses[1] == Entry(Skeptic, "B1");
    assert r.responses == [Entry(Optimist, "A1"), Entry(Skeptic, "B1")];
    RunDebatePrompts("Climate change", 1, Scripted, 0);
    assert r.calls[0] == Call(Optimist, IntroducePrompt("Climate change"));
    RunDebatePrompts("Climate change", 1, Scripted, 1);
    assert Name(Other(SpeakerAt(1))) == "Optimist";
    assert r.calls[1] == Call(Skeptic, RespondPrompt("Climate change", "Optimist", "A1"));
  }

}
