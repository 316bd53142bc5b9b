/**
  The browser debate: `startDebate` in the debate page.

  It does nothing for an empty topic. Otherwise it sets `isDebating`, clears
  `responses`, and runs `turns` rounds in which the Optimist and then the
  Skeptic generate; after each reply it pushes an entry onto `newResponses` and
  shows a copy of it with `setResponses`. The Optimist introduces only in round
  1 and from then on quotes the Skeptic's previous reply, even an empty one;
  the Skeptic always quotes the Optimist's reply of the same round. A throwing
  `generate` ends the loop: the error is logged, what was shown stays shown,
  and `isDebating` is cleared in `finally`.
 */
module UiDebate {
  import opened Optional
  import opened Debate

  /** The page state that `startDebate` touches. */
  datatype View = View(isDebating: bool, responses: seq<Entry>)

  /** The loop's locals and effects: calls made, every value given to `setResponses`, `newResponses`. */
  datatype State = State(calls: seq<Call>, updates: seq<seq<Entry>>, newResponses: seq<Entry>, failed: bool)

  /** The values shown so far are the transcript's prefixes: empty first, then one more entry each time. */
  predicate Snapshots(updates: seq<seq<Entry>>, entries: seq<Entry>)
  {
    && |updates| == |entries| + 1
    && forall j :: 0 <= j < |updates| ==> updates[j] == entries[..j]
  }

  predicate Good(topic: string, gen: Generator, s: State)
  {
    Progress(Ui, topic, gen, s.calls, s.newResponses, s.failed) && Snapshots(s.updates, s.newResponses)
  }

  /** `generate`, then `newResponses.push` and `setResponses([...newResponses])`. */
  function Ask(topic: string, agent: Agent, prompt: string, s: State, gen: Generator): (r: State)
    requires Good(topic, gen, s) && !s.failed
    requires agent == SpeakerAt(|s.newResponses|)
    requires prompt == PromptAt(Ui, topic, s.newResponses, |s.newResponses|)
    ensures Good(topic, gen, r)
    ensures r.failed ==> r.newResponses == s.newResponses
    ensures !r.failed ==> |r.newResponses| == |s.newResponses| + 1
  {
    var k := |s.newResponses|;
    match gen(|s.calls|, agent, prompt)
    case None =>
      ProgressThrow(Ui, topic, gen, s.calls, s.newResponses);
      s.(calls := s.calls + [Call(agent, prompt)], failed := true)
    case Some(text) =>
      ProgressSnoc(Ui, topic, gen, s.calls, s.newResponses, text);
      var shown := s.newResponses + [Entry(agent, text)];
      assert shown[..k] == s.newResponses;
      assert Snapshots(s.updates + [shown], shown) by {
        forall j | 0 <= j < |s.updates| + 1
          ensures (s.updates + [shown])[j] == shown[..j]
        {
          if j < |s.updates| {
            assert shown[..j] == s.newResponses[..j];
          }
        }
      }
      State(s.calls + [Call(agent, prompt)], s.updates + [shown], shown, false)
  }

  /** Round `turn` of the loop. */
  function Round(topic: string, turn: nat, skepticResponse: string, s: State, gen: Generator): (r: State)
    requires Good(topic, gen, s) && !s.failed
    requires 1 <= turn && |s.newResponses| == 2 * (turn - 1) && skepticResponse == LastText(s.newResponses)
    ensures Good(topic, gen, r)
    ensures if r.failed then |r.newResponses| < 2 * turn else |r.newResponses| == 2 * turn
  {
    SpeakersOfRound(turn);
    var prompt :=
      if turn == 1 then IntroducePrompt(topic)
      else RespondPrompt(topic, "Skeptic", skepticResponse);
    var s1 := Ask(topic, Optimist, prompt, s, gen);
    if s1.failed then s1
    else
      var optimistResponse := LastText(s1.newResponses);
      var s2 := Ask(topic, Skeptic, RespondPrompt(topic, "Optimist", optimistResponse), s1, gen);
      s2
  }

  /** The loop `for (let turn = ...; turn <= turns; turn++)`, from round `turn` on. */
  function Loop(topic: string, turn: nat, turns: int, skepticResponse: string, s: State, gen: Generator): (r: State)
    requires Good(topic, gen, s) && !s.failed
    requires 1 <= turn <= RoundCount(turns) + 1
    requires |s.newResponses| == 2 * (turn - 1) && skepticResponse == LastText(s.newResponses)
    ensures Good(topic, gen, r)
    ensures if r.failed then |r.newResponses| < 2 * RoundCount(turns) else |r.newResponses| == 2 * RoundCount(turns)
    decreases RoundCount(turns) + 1 - turn
  {
    if turn > turns then s
    else
      var s2 := Round(topic, turn, skepticResponse, s, gen);
      if s2.failed then s2
      else
        var r := Loop(topic, turn + 1, turns, LastText(s2.newResponses), s2, gen);
        r
  }

  /** What a click on "Start Debate" leaves behind: the calls, every `setResponses` value, whether an error was logged, the page state. */
  datatype Session = Session(calls: seq<Call>, updates: seq<seq<Entry>>, errorLogged: bool, view: View)

  /**
    `startDebate()`: nothing happens for an empty topic; otherwise the run is the
    unique one the reference describes, the page ends showing its transcript
    with `isDebating` false, and each value shown on the way was the transcript
    so far.
   */
  function StartDebate(topic: string, turns: int, view: View, gen: Generator): (r: Session)
    ensures topic == [] ==> r == Session([], [], false, view)
    ensures topic != [] ==> IsRun(Ui, topic, RoundCount(turns), gen, r.calls, r.view.responses, r.errorLogged)
    ensures topic != [] ==> !r.view.isDebating && Snapshots(r.updates, r.view.responses)
  {
    if topic == [] then Session([], [], false, view)
    else
      var s0 := State([], [[]], [], false);
      assert Snapshots(s0.updates, s0.newResponses);
      var s := Loop(topic, 1, turns, [], s0, gen);
      assert s.updates[|s.updates| - 1] == s.newResponses[..|s.newResponses|] == s.newResponses;
      Session(s.calls, s.updates, s.failed, View(false, s.updates[|s.updates| - 1]))
  }

  /** A debate that completes shows two alternating entries per round; with `turns < 1` no call is made and nothing is shown. */
  lemma StartDebateShape(topic: string, turns: int, view: View, gen: Generator)
    ensures var r := StartDebate(topic, turns, view, gen);
      topic != [] ==> Alternates(r.view.responses)
    ensures var r := StartDebate(topic, turns, view, gen);
      topic != [] && !r.errorLogged ==> |r.view.responses| == 2 * RoundCount(turns) && |r.calls| == 2 * RoundCount(turns)
    ensures var r := StartDebate(topic, turns, view, gen);
      topic != [] && turns < 1 ==> r.calls == [] && r.view.responses == [] && !r.errorLogged && r.updates == [[]]
  {
    var r := StartDebate(topic, turns, view, gen);
    if topic != [] {
      RunShape(Ui, topic, RoundCount(turns), gen, r.calls, r.view.responses, r.errorLogged);
    }
  }

  /**
    The page's prompt rule, call by call: only the very first call introduces;
    every later one quotes the reply just before it, the other agent's, even
    when that reply is empty. So the Skeptic always quotes the Optimist.
   */
  lemma StartDebatePrompts(topic: string, turns: int, view: View, gen: Generator, i: nat)
    requires i < |StartDebate(topic, turns, view, gen).calls|
    ensures var r := StartDebate(topic, turns, view, gen);
      && i <= |r.view.responses|
      && r.calls[i].agent == SpeakerAt(i)
      && (r.calls[i].prompt == IntroducePrompt(topic) <==> i == 0)
      && (i > 0 ==> r.calls[i].prompt == RespondPrompt(topic, Name(Other(SpeakerAt(i))), r.view.responses[i - 1].text))
  {
    var r := StartDebate(topic, turns, view, gen);
    CallPrompt(Ui, topic, gen, r.calls, r.view.responses, r.errorLogged, i);
    if i > 0 {
      IntroduceIsNotRespond(topic, topic, Name(Other(SpeakerAt(i))), r.view.responses[i - 1].text);
    }
  }

  /**
    A call that throws ends the debate: the entries shown are the replies to the
    calls before it, the error is logged and `isDebating` is false.
   */
  lemma StartDebateFailure(topic: string, turns: int, view: View, gen: Generator)
    ensures var r := StartDebate(topic, turns, view, gen);
      var k := |r.view.responses|;
      r.errorLogged ==>
        && topic != []
        && |r.calls| == k + 1
        && k < 2 * RoundCount(turns)
        && gen(k, r.calls[k].agent, r.calls[k].prompt).None?
        && (forall i :: 0 <= i < k ==> gen(i, r.calls[i].agent, r.calls[i].prompt) == Some(r.view.responses[i].text))
        && !r.view.isDebating
  {
    var r := StartDebate(topic, turns, view, gen);
    var k := |r.view.responses|;
    if r.errorLogged {
      forall i | 0 <= i < k
        ensures gen(i, r.calls[i].agent, r.calls[i].prompt) == Some(r.view.responses[i].text)
      {
        AnsweredAt(Ui, topic, gen, r.calls, r.view.responses, true, i);
      }
    }
  }

  /** The page shows the generated replies unchanged: entry i is exactly the reply to call i. */
  lemma StartDebateKeepsReplies(topic: string, turns: int, view: View, gen: Generator, i: nat)
    requires topic != [] && i < |StartDebate(topic, turns, view, gen).view.responses|
    ensures var r := StartDebate(topic, turns, view, gen);
      gen(i, r.calls[i].agent, r.calls[i].prompt) == Some(r.view.responses[i].text)
  {
    var r := StartDebate(topic, turns, view, gen);
    AnsweredAt(Ui, topic, gen, r.calls, r.view.responses, r.errorLogged, i);
  }

}
