/**
  How the command-line runner and the browser page differ. They differ only in
  when a speaker introduces itself: in the runner either agent introduces
  whenever the reply it should quote is empty; on the page only the
  Optimist's first call does. So the two run the same debate against any
  model that never replies with an empty string, and part ways at the first
  empty reply.
 */
module Variants {
  import opened Optional
  import opened Debate
  import CliDebate
  import UiDebate

  /** The two prompt rules agree on call i exactly when it is the first call or the reply before it is non-empty. */
  lemma PromptsAgreeIff(topic: string, entries: seq<Entry>, i: nat)
    requires i <= |entries|
    ensures PromptAt(Cli, topic, entries, i) == PromptAt(Ui, topic, entries, i) <==> i == 0 || entries[i - 1].text != []
  {
    if i > 0 && entries[i - 1].text == [] {
      IntroduceIsNotRespond(topic, topic, Name(Other(SpeakerAt(i))), []);
    }
  }

  /** The model never answers with an empty string. */
  ghost predicate NeverEmpty(gen: Generator)
  {
    forall k, a, p :: gen(k, a, p) != Some([])
  }

  /** Against such a model, a runner's run is a page's run too. */
  lemma ProgressCliIsUi(topic: string, gen: Generator, calls: seq<Call>, entries: seq<Entry>, failed: bool)
    requires NeverEmpty(gen)
    requires Progress(Cli, topic, gen, calls, entries, failed)
    ensures Progress(Ui, topic, gen, calls, entries, failed)
  {
    forall i | 0 <= i <= |entries|
      ensures PromptAt(Cli, topic, entries, i) == PromptAt(Ui, topic, entries, i)
    {
      if i > 0 {
        AnsweredAt(Cli, topic, gen, calls, entries, failed, i - 1);
        assert gen(i - 1, SpeakerAt(i - 1), calls[i - 1].prompt) != Some([]);
      }
      PromptsAgreeIff(topic, entries, i);
    }
    forall i | 0 <= i < |entries|
      ensures Answered(Ui, topic, gen, calls, entries, i)
    {
      assert Answered(Cli, topic, gen, calls, entries, i);
    }
  }

  /**
    Against a model that never replies with an empty string, the runner and the
    page (for a non-empty topic) make the same calls, end with the same
    transcript, and fail together.
   */
  lemma SameRunWithoutEmptyReplies(topic: string, turns: int, view: UiDebate.View, gen: Generator)
    requires NeverEmpty(gen) && topic != []
    ensures var c := CliDebate.RunDebate(topic, turns, gen);
      var u := UiDebate.StartDebate(topic, turns, view, gen);
      && c.calls == u.calls
      && c.responses == u.view.responses
      && c.result.None? == u.errorLogged
  {
    var c := CliDebate.RunDebate(topic, turns, gen);
    var u := UiDebate.StartDebate(topic, turns, view, gen);
    ProgressCliIsUi(topic, gen, c.calls, c.responses, c.result.None?);
    RunUnique(Ui, topic, RoundCount(turns), gen, c.calls, c.responses, c.result.None?,
              u.calls, u.view.responses, u.errorLogged);
  }

  /** A model whose first reply is empty and whose other replies are "B". */
  function SilentOpener(k: nat, a: Agent, p: string): Option<string>
  {
    if k == 0 then Some([]) else Some("B")
  }

  /** An empty opening reply: in round 1 the runner's Skeptic, having nothing to quote, introduces itself. */
  lemma EmptyReplyCli()
    ensures var c := CliDebate.RunDebate("T", 1, SilentOpener);
      |c.calls| == 2 && c.calls[1] == Call(Skeptic, IntroducePrompt("T"))
  {
    var c := CliDebate.RunDebate("T", 1, SilentOpener);
    assert c.result.Some?;
    CliDebate.RunDebateShape("T", 1, SilentOpener);
    CliDebate.RunDebatePrompts("T", 1, SilentOpener, 1);
    CliDebate.RunDebateKeepsReplies("T", 1, SilentOpener, 0);
  }

  /** The same reply on the page: its Skeptic quotes the empty reply. */
  lemma EmptyReplyUi(view: UiDebate.View)
    ensures var u := UiDebate.StartDebate("T", 1, view, SilentOpener);
      |u.calls| == 2 && u.calls[1] == Call(Skeptic, RespondPrompt("T", "Optimist", []))
  {
    var u := UiDebate.StartDebate("T", 1, view, SilentOpener);
    assert !u.errorLogged;
    UiDebate.StartDebateShape("T", 1, view, SilentOpener);
    UiDebate.StartDebatePrompts("T", 1, view, SilentOpener, 1);
    AnsweredAt(Ui, "T", SilentOpener, u.calls, u.view.responses, false, 0);
  }

}
