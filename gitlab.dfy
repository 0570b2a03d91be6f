/** The decision logic of the GitLab tool wrapper: project resolution, URL
    building, the query and form parameters of each request, the mapping of
    an HTTP status to a result string, and the label merge of
    `add_labels_to_issue`. HTTP, `quote_plus` and JSON decoding are inputs. */
module GitLab {
  import opened Text
  import opened Labels

  datatype Option<T> = None | Some(value: T)

  datatype Verb = Get | Post | Put

  /** A value of a query or form parameter. */
  datatype Value = Str(s: string) | Int(i: int)

  /** One request issued through the plugin's session. */
  datatype Request = Request(
    verb: Verb,
    url: string,
    headers: map<string, string>,
    params: map<string, Value>,
    data: map<string, Value>)

  datatype Response = Response(status: int, text: string)

  /** What the plugin uses but does not define: `quote_plus`, the HTTP
      exchange of the session, and the decoding of an issue's JSON into its
      `labels` list (an absent field reads as the empty list), `None` when
      the text does not decode to an object. */
  datatype Env = Env(
    quote: string -> string,
    http: Request -> Response,
    parseLabels: string -> Option<seq<string>>)

  /** The prefix by which the tools' results report a failure. */
  const ErrorTag: string := "ERROR:"
  const MissingProject: string := ErrorTag + " project_path is required (no default project configured)."
  const ParseFailure: string := ErrorTag + " could not parse current issue JSON: "
  const DefaultState: string := "opened"
  const DefaultPerPage: int := 20

  /** Python truthiness of an optional string: `None` and `""` are the falsy
      values. */
  predicate Truthy(o: Option<string>)
  {
    o.Some? && o.value != ""
  }

  /** `project = project_path or self.default_project`, kept only when it
      passes `if not project`. */
  function ResolveProject(projectPath: Option<string>, defaultProject: Option<string>): (r: Option<string>)
    ensures r.None? <==> !Truthy(projectPath) && !Truthy(defaultProject)
    ensures r.Some? ==> r.value != ""
    ensures Truthy(projectPath) ==> r == projectPath
    ensures !Truthy(projectPath) ==> r.Some? ==> r == defaultProject
  {
    var project := if Truthy(projectPath) then projectPath else defaultProject;
    if Truthy(project) then project else None
  }

  /** The API path under the base URL at which project addresses start. */
  const ProjectsPath: string := "/api/v4/projects/"

  /** `_project_url`: the API address of a project under a base URL. The
      address starts with the base URL and the projects path, and the rest of
      it is exactly the encoded project. */
  function ProjectUrl(baseUrl: string, project: string, quote: string -> string): (r: string)
    ensures StartsWith(r, baseUrl + ProjectsPath)
    ensures r[|baseUrl + ProjectsPath|..] == quote(project)
  {
    var prefix := baseUrl + ProjectsPath;
    assert (prefix + quote(project))[..|prefix|] == prefix;
    prefix + quote(project)
  }

  /** Under one base URL, two projects share an address exactly when their
      encodings agree: the address identifies the encoded project. */
  lemma ProjectUrlIdentifies(baseUrl: string, p1: string, p2: string, quote: string -> string)
    ensures ProjectUrl(baseUrl, p1, quote) == ProjectUrl(baseUrl, p2, quote) <==> quote(p1) == quote(p2)
  {
    var n := |baseUrl + ProjectsPath|;
    if ProjectUrl(baseUrl, p1, quote) == ProjectUrl(baseUrl, p2, quote) {
      assert quote(p1) == ProjectUrl(baseUrl, p1, quote)[n..] == ProjectUrl(baseUrl, p2, quote)[n..] == quote(p2);
    }
  }

  /** With the base URL normalised as the plugin's constructor does, the
      base and the projects path meet at exactly one `/`: the base part of the
      address never ends in `/`, whatever trailing slashes the configured URL
      carried. */
  lemma ProjectUrlJunction(url: string, project: string, quote: string -> string)
    ensures var b := TrimEnd(url, {'/'});
            var r := ProjectUrl(b, project, quote);
            && StartsWith(r, b + "/api/v4/projects/")
            && (b == [] || b[|b| - 1] != '/')
            && ProjectUrl(TrimEnd(url + "/", {'/'}), project, quote) == r
  {
    BaseUrlNormalised(url);
    var b := TrimEnd(url, {'/'});
    if b != [] {
      assert b[|b| - 1..] == "/" ==> EndsWith(b, "/");
    }
  }

  /** The body of an accepted response; otherwise the error tag, the status
      code and the body, separated by single spaces, from which the status
      can be read back. */
  function Reply(resp: Response, accepted: set<int>): (r: string)
    ensures resp.status in accepted ==> r == resp.text
    ensures resp.status !in accepted ==>
              var code := IntToString(resp.status);
              && StartsWith(r, ErrorTag + " ")
              && EndsWith(r, " " + resp.text)
              && |r| == |ErrorTag| + 1 + |code| + 1 + |resp.text|
              && r[|ErrorTag| + 1..|r| - |resp.text| - 1] == code
  {
    if resp.status in accepted then resp.text
    else
      var head := ErrorTag + " ";
      var code := IntToString(resp.status);
      var tail := " " + resp.text;
      var r := head + code + tail;
      assert r[..|head|] == head;
      assert r[|r| - |tail|..] == tail;
      assert r[|head|..|r| - |tail|] == code;
      r
  }

  /** Testing a reply for the error tag, as `add_labels_to_issue` does,
      flags exactly the rejected statuses and those accepted responses whose
      body itself begins with the tag. */
  lemma ReplyFlagged(resp: Response, accepted: set<int>)
    ensures StartsWith(Reply(resp, accepted), ErrorTag) <==>
            resp.status !in accepted || StartsWith(resp.text, ErrorTag)
  {
    var r := Reply(resp, accepted);
    if resp.status !in accepted {
      assert r[..|ErrorTag|] == (ErrorTag + " ")[..|ErrorTag|];
    }
  }

  /** The query of `list_issues` and `search_merge_requests`: `state` and
      `per_page` always, `search` exactly when it is truthy. */
  predicate IsQuery(params: map<string, Value>, state: string, search: Option<string>, perPage: int) {
    && params.Keys == {"state", "per_page"} + (if Truthy(search) then {"search"} else {})
    && params["state"] == Str(state)
    && params["per_page"] == Int(perPage)
    && (Truthy(search) ==> params["search"] == Str(search.value))
  }

  /** The form of `create_issue`: `title` always, `description` and `labels`
      exactly when they are truthy. */
  predicate IsIssueForm(data: map<string, Value>, title: string, description: Option<string>, labelsCsv: Option<string>) {
    && data.Keys == {"title"} + (if Truthy(description) then {"description"} else {})
                              + (if Truthy(labelsCsv) then {"labels"} else {})
    && data["title"] == Str(title)
    && (Truthy(description) ==> data["description"] == Str(description.value))
    && (Truthy(labelsCsv) ==> data["labels"] == Str(labelsCsv.value))
  }

  /** A configured base URL and the same URL with more trailing slashes give
      the plugin the same base, which never ends in a slash. */
  lemma BaseUrlNormalised(url: string)
    ensures TrimEnd(url + "/", {'/'}) == TrimEnd(url, {'/'})
    ensures !EndsWith(TrimEnd(url, {'/'}), "/")
  {
    TrimEndAbsorbs(url, '/', {'/'});
  }

  class GitLabPlugin {
    var baseUrl: string
    var pat: string
    var defaultProject: Option<string>
    /** The headers the session adds to every request. */
    var headers: map<string, string>

    constructor (baseUrl: string, pat: string, defaultProject: Option<string>)
      ensures this.baseUrl == TrimEnd(baseUrl, {'/'})
      ensures this.pat == pat && this.defaultProject == defaultProject
      ensures headers == map["PRIVATE-TOKEN" := pat]
    {
      this.baseUrl := TrimEnd(baseUrl, {'/'});
      this.pat := pat;
      this.defaultProject := defaultProject;
      this.headers := map["PRIVATE-TOKEN" := pat];
    }

    /** `list_issues`: GET the project's issues, filtered by state and search text. */
    method ListIssues(env: Env, projectPath: Option<string> := None, state: string := DefaultState,
                      search: Option<string> := None, perPage: int := DefaultPerPage)
      returns (result: string, sent: seq<Request>)
      ensures ResolveProject(projectPath, defaultProject).None? ==> result == MissingProject && sent == []
      ensures ResolveProject(projectPath, defaultProject).Some? ==>
                && |sent| == 1
                && sent[0].verb == Get
                && sent[0].url == ProjectUrl(baseUrl, ResolveProject(projectPath, defaultProject).value, env.quote) + "/issues"
                && sent[0].headers == headers
                && IsQuery(sent[0].params, state, search, perPage)
                && sent[0].data == map[]
                && result == Reply(env.http(sent[0]), {200})
    {
      var project := if Truthy(projectPath) then projectPath else defaultProject;
      if !Truthy(project) {
        return MissingProject, [];
      }
      var url := ProjectUrl(baseUrl, project.value, env.quote) + "/issues";
      var params := map["state" := Str(state), "per_page" := Int(perPage)];
      if Truthy(search) {
        params := params["search" := Str(search.value)];
      }
      var request := Request(Get, url, headers, params, map[]);
      var response := env.http(request);
      result, sent := Reply(response, {200}), [request];
    }

    /** `create_issue`: POST a new issue; 200 and 201 both count as success. */
    method CreateIssue(env: Env, title: string, description: Option<string> := None,
                       projectPath: Option<string> := None, labelsCsv: Option<string> := None)
      returns (result: string, sent: seq<Request>)
      ensures ResolveProject(projectPath, defaultProject).None? ==> result == MissingProject && sent == []
      ensures ResolveProject(projectPath, defaultProject).Some? ==>
                && |sent| == 1
                && sent[0].verb == Post
                && sent[0].url == ProjectUrl(baseUrl, ResolveProject(projectPath, defaultProject).value, env.quote) + "/issues"
                && sent[0].headers == headers
                && sent[0].params == map[]
                && IsIssueForm(sent[0].data, title, description, labelsCsv)
                && result == Reply(env.http(sent[0]), {200, 201})
    {
      var project := if Truthy(projectPath) then projectPath else defaultProject;
      if !Truthy(project) {
        return MissingProject, [];
      }
      var url := ProjectUrl(baseUrl, project.value, env.quote) + "/issues";
      var data := map["title" := Str(title)];
      if Truthy(description) {
        data := data["description" := Str(description.value)];
      }
      if Truthy(labelsCsv) {
        data := data["labels" := Str(labelsCsv.value)];
      }
      var request := Request(Post, url, headers, map[], data);
      var response := env.http(request);
      result, sent := Reply(response, {200, 201}), [request];
    }

    /** `get_issue`: GET one issue by its project-scoped number. */
    method GetIssue(env: Env, issueIid: int, projectPath: Option<string> := None)
      returns (result: string, sent: seq<Request>)
      ensures ResolveProject(projectPath, defaultProject).None? ==> result == MissingProject && sent == []
      ensures ResolveProject(projectPath, defaultProject).Some? ==>
                && sent == [Request(Get, IssueUrl(ResolveProject(projectPath, defaultProject).value, issueIid, env), headers, map[], map[])]
                && result == Reply(env.http(sent[0]), {200})
    {
      var project := if Truthy(projectPath) then projectPath else defaultProject;
      if !Truthy(project) {
        return MissingProject, [];
      }
      var url := IssueUrl(project.value, issueIid, env);
      var request := Request(Get, url, headers, map[], map[]);
      var response := env.http(request);
      result, sent := Reply(response, {200}), [request];
    }

    /** `search_merge_requests`: GET the project's merge requests, filtered
        by state and search text. */
    method SearchMergeRequests(env: Env, projectPath: Option<string> := None, state: string := DefaultState,
                               search: Option<string> := None, perPage: int := DefaultPerPage)
      returns (result: string, sent: seq<Request>)
      ensures ResolveProject(projectPath, defaultProject).None? ==> result == MissingProject && sent == []
      ensures ResolveProject(projectPath, defaultProject).Some? ==>
                && |sent| == 1
                && sent[0].verb == Get
                && sent[0].url == ProjectUrl(baseUrl, ResolveProject(projectPath, defaultProject).value, env.quote) + "/merge_requests"
                && sent[0].headers == headers
                && IsQuery(sent[0].params, state, search, perPage)
                && sent[0].data == map[]
                && result == Reply(env.http(sent[0]), {200})
    {
      var project := if Truthy(projectPath) then projectPath else defaultProject;
      if !Truthy(project) {
        return MissingProject, [];
      }
      var url := ProjectUrl(baseUrl, project.value, env.quote) + "/merge_requests";
      var params := map["state" := Str(state), "per_page" := Int(perPage)];
      if Truthy(search) {
        params := params["search" := Str(search.value)];
      }
      var request := Request(Get, url, headers, params, map[]);
      var response := env.http(request);
      result, sent := Reply(response, {200}), [request];
    }

    /** The address of one issue: the project's issues collection, then the
        decimal issue number. */
    function IssueUrl(project: string, issueIid: int, env: Env): string
      reads this
    {
      ProjectUrl(baseUrl, project, env.quote) + "/issues/" + IntToString(issueIid)
    }

    /** `add_labels_to_issue`: read the issue, merge its labels with the
        parsed `labelsToAddCsv`, and PUT the sorted, de-duplicated list back.
        A failed read is returned as it is and nothing is written. */
    method AddLabelsToIssue(env: Env, issueIid: int, labelsToAddCsv: string, projectPath: Option<string> := None)
      returns (result: string, sent: seq<Request>)
      ensures ResolveProject(projectPath, defaultProject).None? ==> result == MissingProject && sent == []
      ensures ResolveProject(projectPath, defaultProject).Some? ==>
                var url := IssueUrl(ResolveProject(projectPath, defaultProject).value, issueIid, env);
                var read := Request(Get, url, headers, map[], map[]);
                var current := Reply(env.http(read), {200});
                && |sent| >= 1 && sent[0] == read
                && (StartsWith(current, ErrorTag) ==> result == current && sent == [read])
                && (!StartsWith(current, ErrorTag) && env.parseLabels(current).None? ==>
                      result == ParseFailure + current && sent == [read])
                && (!StartsWith(current, ErrorTag) && env.parseLabels(current).Some? ==>
                      var labels := LabelsValue(env.parseLabels(current).value, labelsToAddCsv);
                      var write := Request(Put, url, headers, map[], map["labels" := Str(labels)]);
                      sent == [read, write] && result == Reply(env.http(write), {200}))
    {
      var currentJson, fetched := GetIssue(env, issueIid, projectPath);
      assert MissingProject[..|ErrorTag|] == ErrorTag;
      if StartsWith(currentJson, ErrorTag) {
        return currentJson, fetched;
      }
      var issue := env.parseLabels(currentJson);
      if issue.None? {
        return ParseFailure + currentJson, fetched;
      }
      var currentLabels := issue.value;
      var labels := LabelsValue(currentLabels, labelsToAddCsv);
      var project := if Truthy(projectPath) then projectPath else defaultProject;
      if !Truthy(project) {
        return MissingProject, fetched;
      }
      var url := IssueUrl(project.value, issueIid, env);
      var request := Request(Put, url, headers, map[], map["labels" := Str(labels)]);
      var response := env.http(request);
      result, sent := Reply(response, {200}), fetched + [request];
    }
  }
}
