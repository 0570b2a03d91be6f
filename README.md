# Scrum-team agent pipeline and GitLab tool wrapper, modelled in Dafny

The system runs a team of language-model agents (Product Owner, Business
Analyst, Solution Architect, QA) over a free-text task and gives the product
owner a small set of GitLab tools. Two parts of it have behaviour that can be
stated exactly, and those are what this project models:

- **The sequential orchestrator** (`Orchestrator` in `orchestrator.dfy`). It
  runs each agent once, in list order. The first agent gets the task, and
  every later agent gets the previous agent's output. Each stage is reported
  to the `on_message` callback twice: first `"Running..."`, then the result.
  The `(name, output)` pairs are joined into a markdown document of `## name`
  sections separated by blank lines. The `Run` method keeps the source's loop.
  It is proved against the functions `Stages`, `Callbacks` and `Document`, and
  lemmas state what those functions promise: chaining, order, the shape of
  the log, and how the document starts and ends.
- **The GitLab plugin** (`GitLabPlugin` in `gitlab.dfy`). This covers:
  - trimming the base URL in the constructor;
  - resolving the project (the explicit argument, else the configured
    default, else an error string, with no request sent);
  - the query and form parameters each tool builds;
  - mapping an HTTP status to either the body or an `ERROR: <code> <text>`
    string;
  - the label merge of `add_labels_to_issue`: split a comma-separated list,
    strip each piece, drop empty pieces, take the union with the current
    labels, sort, de-duplicate and re-join with `,`.

  Each tool method returns its result string and the list of requests it
  issued.

Two supporting modules hold the Python string and list operations these rely
on. `text.dfy` covers `join`, `split`, `strip`, `lstrip`, `rstrip`, `startswith`
and `str(int)`. `labels.dfy` covers Python's ordering on `str` and
`sorted(set(...))`.

What is external is a parameter:
- the chat completion of an agent is `complete: (Agent, string) -> string`;
- the callback is the returned log of `(name, text)` messages;
- the HTTP session is `Env.http: Request -> Response`;
- `quote_plus` is `Env.quote`;
- JSON decoding of an issue is `Env.parseLabels`.

Python truthiness of an optional string (`None` and `""` are falsy) is the
predicate `GitLab.Truthy`; the project resolution and the optional query and
form parameters are stated in terms of it.

In `add_labels_to_issue` the project is resolved a second time before the PUT
(plugins/gitlab_plugin.py:122-124). The model keeps that branch. It cannot be
reached: when no project resolves, `get_issue` has already returned the
missing-project error, and that error starts with `ERROR:`.

## Model

| member | source | states |
|---|---|---|
| `Orchestration.Orchestrator.constructor` | agents/orchestrator.py:3-4 | the orchestrator holds exactly the given agent list |
| `Orchestration.Orchestrator.Run` | agents/orchestrator.py:6-23 | the returned document is the markdown join of the pipeline's outputs; the callback log is the per-stage running/result pairs of those outputs; with no agents the result is "" and no callback fires |
| `Orchestration.Stages` | agents/orchestrator.py:10-15 | one output per agent, named after that agent, in agent order |
| `Orchestration.StagesPrefix` | agents/orchestrator.py:10-15 | running the first n agents yields the first n outputs of running them all |
| `Orchestration.StageAt` | agents/orchestrator.py:7-15 | stage k's content is agent k's answer to the input left by the earlier stages |
| `Orchestration.StagesChain` | agents/orchestrator.py:7-15 | agent 0 is called on the task; agent i+1 is called on exactly agent i's result |
| `Orchestration.StagesUnique` | agents/orchestrator.py:10-15 | any output list with one correctly named entry per agent that satisfies the chaining is the pipeline's output list, so each agent runs once, in order |
| `Orchestration.Callbacks` | agents/orchestrator.py:11-17 | the log has exactly two entries per stage |
| `Orchestration.CallbacksAt` | agents/orchestrator.py:11-17 | log entry 2i is (name_i, "Running...") and entry 2i+1 is (name_i, result_i) |
| `Orchestration.Section` | agents/orchestrator.py:20 | a stage's section is the `## name` heading line immediately followed by the stage's output: it starts with the one, ends with the other, and its length is the sum of theirs, so nothing lies between |
| `Orchestration.Document` | agents/orchestrator.py:19-21 | the document is empty exactly when no agent ran |
| `Orchestration.DocumentEnds` | agents/orchestrator.py:19-21 | with at least one stage the document opens with the first agent's `## name` heading and ends with the last agent's output |
| `Text.Join` | agents/orchestrator.py:19-21 | `sep.join(parts)`: empty for no parts; otherwise as long as the parts together plus one separator per gap |
| `Text.JoinEndsWithLast` | agents/orchestrator.py:19-21 | a non-empty join ends with its last part |
| `Text.JoinStartsWithFirst` | agents/orchestrator.py:19-21 | a non-empty join starts with its first part |
| `Text.Split` | plugins/gitlab_plugin.py:119 | splitting on a separator yields at least one piece |
| `Text.SplitPiecesFree` | plugins/gitlab_plugin.py:119 | no piece of a split contains the separator |
| `Text.JoinSplit` | plugins/gitlab_plugin.py:119 | joining the pieces of a split with the separator restores the string |
| `Text.SplitJoin` | plugins/gitlab_plugin.py:126 | splitting the join of a non-empty list of separator-free pieces restores the pieces |
| `Text.TrimStart` | plugins/gitlab_plugin.py:119 | removes exactly the longest leading run of the given characters |
| `Text.TrimEnd` | plugins/gitlab_plugin.py:18 | removes exactly the longest trailing run of the given characters; the result is a prefix and does not end in one of them |
| `Text.StripChars` | plugins/gitlab_plugin.py:119 | stripping a set of characters from both ends never lengthens the string, and neither end of the result is in the set |
| `Text.Strip` | plugins/gitlab_plugin.py:119 | `strip()` never lengthens the string, and neither end of the result is whitespace |
| `Text.StripTrims` | plugins/gitlab_plugin.py:119 | stripping both ends is the same as `lstrip` followed by `rstrip` of the same characters |
| `Text.StripSlice` | plugins/gitlab_plugin.py:119 | a stripped string is a contiguous slice of the input, and every character cut off on either side is in the stripped set |
| `Text.StripIdempotent` | plugins/gitlab_plugin.py:119 | stripping twice equals stripping once |
| `Text.TrimEndAbsorbs` | plugins/gitlab_plugin.py:18 | trimming is idempotent, and one more trailing trimmed character does not change the result |
| `Text.NatToString` | plugins/gitlab_plugin.py:46 | a status code renders as a non-empty string of decimal digits without leading zeros |
| `Text.ParseNatToString` | plugins/gitlab_plugin.py:46 | reading the decimal rendering back gives the number |
| `Text.IntToString` | plugins/gitlab_plugin.py:46 | `str(i)` is the decimal digits of `i`, after a `-` when `i` is negative, with no leading zero, and reading the digits back gives `i` (its absolute value when negative) |
| `Labels.Below` | plugins/gitlab_plugin.py:120 | Python's `<` on strings, by code point with a proper prefix first; no string is below itself |
| `Labels.BelowTransitive` | plugins/gitlab_plugin.py:120 | the string order is transitive |
| `Labels.BelowTotal` | plugins/gitlab_plugin.py:120 | any two distinct strings are ordered one way or the other |
| `Labels.BelowAsymmetric` | plugins/gitlab_plugin.py:120 | the string order is asymmetric |
| `Labels.Insert` | plugins/gitlab_plugin.py:120 | inserting into a strictly sorted list keeps it strictly sorted and adds exactly the new element |
| `Labels.SortedSet` | plugins/gitlab_plugin.py:120 | the result is strictly sorted and holds exactly the elements of the input |
| `Labels.SortedUnique` | plugins/gitlab_plugin.py:120 | two strictly sorted lists with the same elements are equal, so the sorted de-duplicated list is unique |
| `Labels.KeepStripped` | plugins/gitlab_plugin.py:119 | at most one label per piece, each non-empty and already stripped |
| `Labels.ParseLabels` | plugins/gitlab_plugin.py:119 | at most one label per comma-separated piece, none empty and none holding a comma |
| `Labels.KeepStrippedMembers` | plugins/gitlab_plugin.py:119 | a label is kept exactly when it is the non-empty strip of some piece |
| `Labels.KeepStrippedShape` | plugins/gitlab_plugin.py:119 | every kept label is non-empty, already stripped, and comma-free when the pieces are |
| `Labels.ParseLabelsSpec` | plugins/gitlab_plugin.py:119 | the parsed labels are exactly the non-empty stripped comma-separated pieces; none holds a comma or surrounding whitespace |
| `Labels.MergeLabels` | plugins/gitlab_plugin.py:120 | the merged list is strictly sorted and its elements are the union of the current and the new labels |
| `Labels.MergeLabelsIdempotent` | plugins/gitlab_plugin.py:119-126 | adding the same labels again changes nothing |
| `Labels.MergeLabelsOrderFree` | plugins/gitlab_plugin.py:119-126 | adding two batches of labels in either order gives the same list |
| `Labels.MergedLabelsRoundTrip` | plugins/gitlab_plugin.py:119-126 | when the merged list is non-empty and the current labels are comma-free, the `labels` value sent in the PUT splits back into exactly the merged list |
| `GitLab.ResolveProject` | plugins/gitlab_plugin.py:37-39 | a truthy `project_path` wins, otherwise a truthy default; resolution fails exactly when both are empty or absent |
| `GitLab.ProjectUrl` | plugins/gitlab_plugin.py:24-25 | the project address starts with the base URL and `/api/v4/projects/`, and everything after them is the encoded project |
| `GitLab.ProjectUrlIdentifies` | plugins/gitlab_plugin.py:24-25 | under one base URL, two projects get the same address exactly when their encodings agree |
| `GitLab.ProjectUrlJunction` | plugins/gitlab_plugin.py:18-25 | with the base URL trimmed as the constructor does, the base never ends in `/`, so it meets `/api/v4/projects/` at a single slash, and extra trailing slashes in the configured URL give the same address |
| `GitLab.Reply` | plugins/gitlab_plugin.py:45-47 | an accepted status returns the body verbatim; a rejected one gives `ERROR: `, the status in decimal, a space and the body, with the status readable from the middle (the same mapping closes every tool) |
| `GitLab.ReplyFlagged` | plugins/gitlab_plugin.py:45-47 | a reply starts with `ERROR:` exactly when the status is rejected or the body itself starts so |
| `GitLab.BaseUrlNormalised` | plugins/gitlab_plugin.py:18 | the stored base URL never ends in `/`, and extra trailing slashes in the configuration do not change it |
| `GitLab.GitLabPlugin.constructor` | plugins/gitlab_plugin.py:17-22 | the base URL is the given one with all trailing slashes removed; the token and default project are stored; the session carries the `PRIVATE-TOKEN` header |
| `GitLab.GitLabPlugin.ListIssues` | plugins/gitlab_plugin.py:30-47 | with no project: the missing-project error and no request; otherwise one GET to the project's `/issues` with `state`, `per_page` and `search` only when truthy, and the status mapped with 200 as success |
| `GitLab.GitLabPlugin.CreateIssue` | plugins/gitlab_plugin.py:50-69 | with no project: the error and no request; otherwise one POST with `title`, plus `description` and `labels` only when truthy, and 200 or 201 as success |
| `GitLab.GitLabPlugin.GetIssue` | plugins/gitlab_plugin.py:72-80 | with no project: the error and no request; otherwise one GET to `/issues/<iid>` and 200 as success |
| `GitLab.GitLabPlugin.SearchMergeRequests` | plugins/gitlab_plugin.py:83-100 | as for `list_issues`, against the project's `/merge_requests` |
| `GitLab.GitLabPlugin.AddLabelsToIssue` | plugins/gitlab_plugin.py:103-130 | a failed read is returned unchanged with no PUT; an undecodable issue gives the parse error with no PUT; otherwise one PUT to the same issue whose `labels` is the merged list joined by `,`, with 200 as success |

## Left out

- The hosted chat API (agents/base_agent.py) is the `complete` parameter. Its prompt assembly, temperature, environment reads and a possibly `None` message content are not modelled.
- Failures of an agent call or of an HTTP request are not modelled: the source raises and the run aborts. The model's `complete` and `http` are total, so the model never has a run that ends after a lone `"Running..."` entry.
- `async`/`await`: execution is strictly sequential, so the model uses ordinary calls.
- `on_message` is not a real callback. The model returns the sequence of its calls instead.
- Real HTTP, timeouts, the `requests` session's own default headers, and `quote_plus` percent-encoding are left out. `quote_plus` is the opaque `Env.quote`.
- The order of query parameters on the wire is left out. Parameters are modelled as maps, not as ordered dicts.
- JSON decoding is the opaque `Env.parseLabels`. An issue whose `labels` field is not a list of strings makes the source raise outside its `try` block. That case is not modelled.
- Python's dynamic typing is not modelled. Optional string arguments are `Option<string>`, truthiness is "present and non-empty", and `issue_iid` and `per_page` are integers.
- streamlit_app.py (UI, session state, timers, floating-point minutes), runtime/run_scrum_team.py (delegates to the agent SDK's group chat and runtime), agents/product_owner.py and agents/business_analyst.py (prompt text for SDK constructors) are not modelled.
- The group-chat round manager (manager/scrum_group_chat_manager.py) is not part of this model.
