/**
 * The `check` command (src/commands/check.ts): fetch one task's status and
 * print it. `printStatus` becomes a function from the status record to the
 * lines it logs, one string per `console.log` call, in order.
 */
module Check {
  import opened Common
  import opened Config
  import opened Api

  /** One declared input of a workflow. `defaultValue` is the text that
      `${input.default}` renders to, and `None` when the member is `undefined`. */
  datatype Input = Input(name: string, kind: string, defaultValue: Option<string>, description: Option<string>)

  /** One declared output of a workflow. */
  datatype Output = Output(name: string, kind: string, description: Option<string>)

  /** The members of the service's task record that `check` prints. */
  datatype TaskStatus = TaskStatus(taskId: string, status: string, curl: Option<string>,
                                   inputs: Option<seq<Input>>, outputs: Option<seq<Output>>,
                                   error: Option<string>, skillMd: Option<string>, addCommand: Option<string>)

  // ---------------------------------------------------------------------------
  // Lists printed item by item

  /** The lines of a list, each item's lines in the list's order. */
  function Lines<T>(xs: seq<T>, f: T -> seq<string>): seq<string>
  {
    if |xs| == 0 then [] else f(xs[0]) + Lines(xs[1..], f)
  }

  lemma {:induction false} LinesAppend<T>(a: seq<T>, b: seq<T>, f: T -> seq<string>)
    ensures Lines(a + b, f) == Lines(a, f) + Lines(b, f)
    decreases |a|
  {
    if |a| == 0 {
      assert a + b == b;
    } else {
      assert (a + b)[1..] == a[1..] + b;
      LinesAppend(a[1..], b, f);
    }
  }

  /** Printing in array order: item `i`'s lines come right after the lines of
      the items before it, and the lines of the items after it follow. */
  lemma LinesInOrder<T>(xs: seq<T>, i: nat, f: T -> seq<string>)
    requires i < |xs|
    ensures Lines(xs, f) == Lines(xs[..i], f) + f(xs[i]) + Lines(xs[i + 1..], f)
  {
    var before, after := xs[..i], xs[i + 1..];
    assert xs == before + ([xs[i]] + after);
    LinesAppend(before, [xs[i]] + after, f);
    assert Lines([xs[i]] + after, f) == f(xs[i]) + Lines(after, f) by {
      assert ([xs[i]] + after)[1..] == after;
    }
  }

  /** The first line of an input without its default. */
  function InputHead(x: Input): string {
    "  " + x.name + ": " + x.kind
  }

  /** The lines of one input: `  name: type`, with ` (default: …)` when a
      default is defined, then the indented description when it is truthy. */
  function InputLines(x: Input): (lines: seq<string>)
    ensures |lines| == 1 || |lines| == 2
    ensures StartsWith(lines[0], InputHead(x))
    ensures lines[0] == InputHead(x) <==> x.defaultValue.None?
    ensures x.defaultValue.Some? ==> EndsWith(lines[0], " (default: " + x.defaultValue.value + ")")
    ensures |lines| == 2 <==> Truthy(x.description)
    ensures |lines| == 2 ==> lines[1] == "    " + x.description.value
  {
    var suffix := if x.defaultValue.Some? then " (default: " + x.defaultValue.value + ")" else "";
    var head := InputHead(x) + suffix;
    assert head[..|InputHead(x)|] == InputHead(x);
    assert head[|head| - |suffix|..] == suffix;
    [head] + (if Truthy(x.description) then ["    " + x.description.value] else [])
  }

  /** The lines of one output: `  name: type`, then the indented description
      when it is truthy. */
  function OutputLines(o: Output): (lines: seq<string>)
    ensures |lines| == 1 || |lines| == 2
    ensures lines[0] == "  " + o.name + ": " + o.kind
    ensures |lines| == 2 <==> Truthy(o.description)
    ensures |lines| == 2 ==> lines[1] == "    " + o.description.value
  {
    ["  " + o.name + ": " + o.kind] + (if Truthy(o.description) then ["    " + o.description.value] else [])
  }

  // ---------------------------------------------------------------------------
  // The sections of a completed task

  /** `xs && xs.length > 0`. */
  predicate NonEmpty<T>(xs: Option<seq<T>>) {
    xs.Some? && |xs.value| > 0
  }

  const InputsHeader: string := "--- Inputs ---"
  const OutputsHeader: string := "\n--- Outputs ---"
  const CurlHeader: string := "\n--- cURL ---"
  const InstructionsHeader: string := "\n--- Instructions ---"
  const AddHeader: string := "\n--- Add as Skill ---"

  function InputsSection(inputs: Option<seq<Input>>): (r: seq<string>)
    ensures r == [] <==> !NonEmpty(inputs)
    ensures NonEmpty(inputs) ==> r[0] == InputsHeader && r[1..] == Lines(inputs.value, InputLines)
  {
    if NonEmpty(inputs) then [InputsHeader] + Lines(inputs.value, InputLines) else []
  }

  function OutputsSection(outputs: Option<seq<Output>>): (r: seq<string>)
    ensures r == [] <==> !NonEmpty(outputs)
    ensures NonEmpty(outputs) ==> r[0] == OutputsHeader && r[1..] == Lines(outputs.value, OutputLines)
  {
    if NonEmpty(outputs) then [OutputsHeader] + Lines(outputs.value, OutputLines) else []
  }

  /** A header and a text field printed as they are, when the field is truthy. */
  function TextSection(header: string, field: Option<string>): (r: seq<string>)
    ensures r == [] <==> !Truthy(field)
    ensures Truthy(field) ==> r == [header, field.value]
  {
    if Truthy(field) then [header, field.value] else []
  }

  function AddSection(addCommand: Option<string>): (r: seq<string>)
    ensures r == [] <==> !Truthy(addCommand)
    ensures Truthy(addCommand) ==> |r| == 3 && r[0] == AddHeader && r[2] == "  " + addCommand.value
  {
    if Truthy(addCommand) then
      [AddHeader, "Run this command to add this workflow as a local skill:", "  " + addCommand.value]
    else []
  }

  /** What a completed task prints: nothing at all exactly when it has no
      inputs, no outputs, no cURL, no instructions and no add command;
      otherwise its first line is the header of the first section present. */
  function CompletedLines(s: TaskStatus): (r: seq<string>)
    ensures r == [] <==> !NonEmpty(s.inputs) && !NonEmpty(s.outputs) && !Truthy(s.curl)
                         && !Truthy(s.skillMd) && !Truthy(s.addCommand)
    ensures r != [] ==> r[0] in {InputsHeader, OutputsHeader, CurlHeader, InstructionsHeader, AddHeader}
  {
    InputsSection(s.inputs) + OutputsSection(s.outputs) + TextSection(CurlHeader, s.curl)
    + TextSection(InstructionsHeader, s.skillMd) + AddSection(s.addCommand)
  }

  /** The sections come in the fixed order Inputs, Outputs, cURL,
      Instructions, Add as Skill: each present section's header stands at the
      index where the sections before it end. */
  lemma CompletedOrder(s: TaskStatus)
    ensures var r, a := CompletedLines(s), |InputsSection(s.inputs)|;
            var b := a + |OutputsSection(s.outputs)|;
            var c := b + |TextSection(CurlHeader, s.curl)|;
            var d := c + |TextSection(InstructionsHeader, s.skillMd)|;
            && (NonEmpty(s.inputs) ==> r[0] == InputsHeader)
            && (NonEmpty(s.outputs) ==> a < |r| && r[a] == OutputsHeader)
            && (Truthy(s.curl) ==> b + 1 < |r| && r[b] == CurlHeader && r[b + 1] == s.curl.value)
            && (Truthy(s.skillMd) ==> c + 1 < |r| && r[c] == InstructionsHeader && r[c + 1] == s.skillMd.value)
            && (Truthy(s.addCommand) ==> d + 2 < |r| && r[d] == AddHeader && r[d + 2] == "  " + s.addCommand.value)
            && d + |AddSection(s.addCommand)| == |r|
  {
  }

  /** `printStatus`: a `Status:` line exactly when the task is not completed,
      then the message of its state. */
  function PrintStatus(s: TaskStatus): (r: seq<string>)
    ensures s.status != "completed" <==> |r| > 0 && r[0] == "Status: " + s.status
    ensures s.status == "pending" ==> r == ["Status: pending", "Task is queued and waiting to be processed."]
    ensures s.status == "processing" ==> r == ["Status: processing", "Task is being processed..."]
    ensures s.status == "error" ==> r == ["Status: error", "Task failed with error:", OrElse(s.error, "Unknown error")]
    ensures s.status !in {"pending", "processing", "completed", "error"} ==> r == ["Status: " + s.status]
    ensures s.status == "completed" ==> r == CompletedLines(s)
  {
    if s.status == "completed" then
      var r := CompletedLines(s);
      assert r != [] ==> r[0][0] != 'S';
      r
    else
      var line := "Status: " + s.status;
      assert s.status == "pending" ==> line == "Status: pending";
      assert s.status == "processing" ==> line == "Status: processing";
      assert s.status == "error" ==> line == "Status: error";
      if s.status == "pending" then [line, "Task is queued and waiting to be processed."]
      else if s.status == "processing" then [line, "Task is being processed..."]
      else if s.status == "error" then [line, "Task failed with error:", OrElse(s.error, "Unknown error")]
      else [line]
  }

  // ---------------------------------------------------------------------------
  // The command

  datatype CheckRun = CheckRun(request: Option<HttpRequest>, stdout: seq<string>, stderr: seq<string>, exitCode: int)

  const NotAuthenticatedLines: seq<string> := ["Error: Not authenticated", "Run 'grabbit auth' to authenticate first."]

  /** The request `checkTask` sends: a GET of the task's path. */
  function TaskRequest(taskId: string, token: string, apiUrl: string): (r: HttpRequest)
    ensures r.url == apiUrl + "/api/cli/tasks/" + taskId && r.verb == "GET" && r.body == None
    ensures token != "" ==> r.headers.Keys == {Authorization} && r.headers[Authorization] == "Bearer " + token
  {
    PrepareRequest("/api/cli/tasks/" + taskId, RequestInit("GET", map[], None, None), token, apiUrl)
  }

  /** `check`: without a token it stops before any request; otherwise it
      prints the status it got, or the error with exit code 1. */
  function RunCheck(taskId: string, config: Option<Config>, apiUrl: string, reply: Reply<TaskStatus>): (r: CheckRun)
    ensures !HasToken(config) ==> r == CheckRun(None, [], NotAuthenticatedLines, 1)
    ensures HasToken(config) ==> r.request == Some(TaskRequest(taskId, config.value.token, apiUrl))
    ensures HasToken(config) ==> (r.exitCode == 0 <==> ApiResult(reply).Success?)
    ensures HasToken(config) && ApiResult(reply).Success? ==> r.stdout == PrintStatus(ApiResult(reply).value) && r.stderr == []
    ensures HasToken(config) && ApiResult(reply).Failure? ==>
              r.stdout == [] && r.stderr == ["Failed to check task: " + ApiResult(reply).error] && r.exitCode == 1
  {
    if !HasToken(config) then CheckRun(None, [], NotAuthenticatedLines, 1)
    else
      var request := TaskRequest(taskId, config.value.token, apiUrl);
      match ApiResult(reply)
      case Success(status) => CheckRun(Some(request), PrintStatus(status), [], 0)
      case Failure(m) => CheckRun(Some(request), [], ["Failed to check task: " + m], 1)
  }
}
