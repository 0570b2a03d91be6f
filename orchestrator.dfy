/** The sequential agent pipeline: each agent runs once, in list order, on the
    previous agent's output (the first on the task); every stage is reported
    to a callback before and after it runs, and the outputs are joined into a
    markdown document of `## name` sections. */
module Orchestration {
  import opened Text

  /** An agent: its display name and the system prompt of its role. The chat
      completion it performs is the `complete` parameter of `Run`. */
  datatype Agent = Agent(name: string, rolePrompt: string)

  /** One entry of `outputs`: an agent's name and the text it produced. */
  datatype Output = Output(name: string, content: string)

  /** One call of the `on_message(name, text)` callback. */
  datatype Message = Message(name: string, text: string)

  /** The status reported before an agent runs. */
  const Running: string := "Running..."

  /** The input of the stage after `done`: the task at first, then the last
      output. */
  function NextInput(done: seq<Output>, task: string): string {
    if done == [] then task else done[|done| - 1].content
  }

  /** The outputs of the pipeline over `agents`, built stage by stage. */
  function Stages(agents: seq<Agent>, complete: (Agent, string) -> string, task: string): (r: seq<Output>)
    ensures |r| == |agents|
    ensures forall k :: 0 <= k < |r| ==> r[k].name == agents[k].name
  {
    if agents == [] then []
    else
      var done := Stages(agents[..|agents| - 1], complete, task);
      var agent := agents[|agents| - 1];
      done + [Output(agent.name, complete(agent, NextInput(done, task)))]
  }

  /** Running a prefix of the agents gives a prefix of the outputs. */
  lemma {:induction false} StagesPrefix(agents: seq<Agent>, complete: (Agent, string) -> string, task: string, n: nat)
    requires n <= |agents|
    ensures Stages(agents[..n], complete, task) == Stages(agents, complete, task)[..n]
  {
    if n < |agents| {
      var m := |agents| - 1;
      StagesPrefix(agents[..m], complete, task, n);
      assert agents[..m][..n] == agents[..n];
      assert Stages(agents, complete, task)[..m] == Stages(agents[..m], complete, task);
    } else {
      assert agents[..n] == agents;
    }
  }

  /** Stage k's content is agent k's answer to the input left by stages 0..k-1. */
  lemma StageAt(agents: seq<Agent>, complete: (Agent, string) -> string, task: string, k: nat)
    requires k < |agents|
    ensures Stages(agents, complete, task)[k].content ==
            complete(agents[k], NextInput(Stages(agents, complete, task)[..k], task))
  {
    StagesPrefix(agents, complete, task, k + 1);
    StagesPrefix(agents, complete, task, k);
    var pre := agents[..k + 1];
    assert pre[..k] == agents[..k] && pre[k] == agents[k];
  }

  /** Agent 0 runs on the task, and agent i+1 on exactly the output of agent i. */
  lemma StagesChain(agents: seq<Agent>, complete: (Agent, string) -> string, task: string)
    ensures |agents| > 0 ==> Stages(agents, complete, task)[0].content == complete(agents[0], task)
    ensures forall k :: 0 < k < |agents| ==>
              Stages(agents, complete, task)[k].content ==
              complete(agents[k], Stages(agents, complete, task)[k - 1].content)
  {
    var r := Stages(agents, complete, task);
    if |agents| > 0 {
      StageAt(agents, complete, task, 0);
    }
    forall k | 0 < k < |agents|
      ensures r[k].content == complete(agents[k], r[k - 1].content)
    {
      StageAt(agents, complete, task, k);
      assert r[..k][k - 1] == r[k - 1];
    }
  }

  /** The chain determines the outputs: any list with one entry per agent, in
      agent order, whose first content is the first agent's answer to the
      task and whose every later content is that agent's answer to the
      content before it, is the pipeline's output list. */
  lemma {:induction false} StagesUnique(agents: seq<Agent>, complete: (Agent, string) -> string, task: string, outs: seq<Output>)
    requires |outs| == |agents|
    requires forall k :: 0 <= k < |outs| ==> outs[k].name == agents[k].name
    requires |outs| > 0 ==> outs[0].content == complete(agents[0], task)
    requires forall k :: 0 < k < |outs| ==> outs[k].content == complete(agents[k], outs[k - 1].content)
    ensures outs == Stages(agents, complete, task)
  {
    if agents != [] {
      var m := |agents| - 1;
      var pre, init := agents[..m], outs[..m];
      forall k | 0 <= k < m ensures init[k] == outs[k] && pre[k] == agents[k] { }
      assert forall k :: 0 <= k < m ==> init[k].name == pre[k].name;
      assert forall k :: 0 < k < m ==> init[k].content == complete(pre[k], init[k - 1].content);
      StagesUnique(pre, complete, task, init);
      assert outs[m] == Output(agents[m].name, complete(agents[m], NextInput(init, task)));
      assert outs == init + [outs[m]];
    }
  }

  /** The callback log of a run that produced `outs`: per stage, the running
      notice and then the result. */
  function Callbacks(outs: seq<Output>): (r: seq<Message>)
    ensures |r| == 2 * |outs|
  {
    if outs == [] then []
    else
      var o := outs[|outs| - 1];
      Callbacks(outs[..|outs| - 1]) + [Message(o.name, Running), Message(o.name, o.content)]
  }

  /** Entry 2i of the log is agent i's running notice, entry 2i+1 its result. */
  lemma {:induction false} CallbacksAt(outs: seq<Output>)
    ensures forall i :: 0 <= i < |outs| ==>
              Callbacks(outs)[2 * i] == Message(outs[i].name, Running) &&
              Callbacks(outs)[2 * i + 1] == Message(outs[i].name, outs[i].content)
  {
    if outs != [] {
      var m := |outs| - 1;
      CallbacksAt(outs[..m]);
      assert forall i :: 0 <= i < m ==> outs[..m][i] == outs[i];
    }
  }

  /** A section of the document: a level-two heading with the agent's name,
      then its output on the next line. */
  function Section(o: Output): (r: string)
    ensures StartsWith(r, "## " + o.name + "\n")
    ensures EndsWith(r, o.content)
    ensures |r| == |"## " + o.name + "\n"| + |o.content|
  {
    var head := "## " + o.name + "\n";
    assert (head + o.content)[|head|..] == o.content;
    head + o.content
  }

  /** The final markdown document: the sections joined by blank lines. It is
      empty exactly when there were no stages. */
  function Document(outs: seq<Output>): (r: string)
    ensures r == "" <==> outs == []
  {
    var sections := seq(|outs|, k requires 0 <= k < |outs| => Section(outs[k]));
    assert outs != [] ==> |sections[0]| >= 4 && TotalLength(sections) >= |sections[0]|;
    Join("\n\n", sections)
  }

  /** With at least one stage, the document opens with the first agent's
      heading and ends with the last agent's output. */
  lemma DocumentEnds(outs: seq<Output>)
    requires outs != []
    ensures StartsWith(Document(outs), "## " + outs[0].name + "\n")
    ensures EndsWith(Document(outs), outs[|outs| - 1].content)
  {
    var sections := seq(|outs|, k requires 0 <= k < |outs| => Section(outs[k]));
    JoinStartsWithFirst("\n\n", sections);
    JoinEndsWithLast("\n\n", sections);
    var first, last := sections[0], sections[|sections| - 1];
    var d := Document(outs);
    var head := "## " + outs[0].name + "\n";
    assert first == head + outs[0].content;
    assert d[..|head|] == first[..|head|];
    var tail := outs[|outs| - 1].content;
    assert d[|d| - |tail|..] == last[|last| - |tail|..];
  }

  class Orchestrator {
    var agents: seq<Agent>

    constructor (agents: seq<Agent>)
      ensures this.agents == agents
    {
      this.agents := agents;
    }

    /** Runs the pipeline on `task`, with `complete(agent, input)` standing
        for the agent's chat completion. Returns the document and the calls
        made to the callback, in order. */
    method Run(task: string, complete: (Agent, string) -> string) returns (final: string, log: seq<Message>)
      ensures final == Document(Stages(agents, complete, task))
      ensures log == Callbacks(Stages(agents, complete, task))
      ensures agents == [] ==> final == "" && log == []
    {
      var currentInput := task;
      var outputs: seq<Output> := [];
      log := [];
      for i := 0 to |agents|
        invariant outputs == Stages(agents[..i], complete, task)
        invariant currentInput == NextInput(outputs, task)
        invariant log == Callbacks(outputs)
      {
        var agent := agents[i];
        log := log + [Message(agent.name, Running)];
        var result := complete(agent, currentInput);
        assert agents[..i + 1][..i] == agents[..i] && agents[..i + 1][i] == agent;
        assert Stages(agents[..i + 1], complete, task) == outputs + [Output(agent.name, result)];
        outputs := outputs + [Output(agent.name, result)];
        currentInput := result;
        log := log + [Message(agent.name, result)];
      }
      assert agents[..|agents|] == agents;
      final := Document(outputs);
    }
  }
}
