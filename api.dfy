/**
 * Requests to the remote service (src/lib/api.ts): how `apiRequest` builds
 * the URL and headers and turns a reply into a value or an error message,
 * how `submitTask` chooses between a JSON and a multipart body and what each
 * holds, `validateToken`'s error mapping and `listWorkflows`' mapping.
 *
 * `fetch` is not modelled: the request that would be sent is the output and
 * the reply is an input. Whether the runtime has `FormData`/`Blob` is a flag.
 */
module Api {
  import opened Common
  import opened JsonCodec

  // ---------------------------------------------------------------------------
  // Requests and replies

  /** A form part: the capture as a file, or a plain text field. */
  datatype FormField =
    | FileField(name: string, data: seq<byte>, contentType: string, filename: string)
    | TextField(name: string, value: string)

  /** The capture as given to `submitTask`: text, or bytes (already compressed). */
  datatype HarContent = Text(text: string) | Bytes(bytes: seq<byte>)

  datatype RequestBody = JsonText(text: string) | Form(fields: seq<FormField>)

  /** The `options` argument of `apiRequest`. */
  datatype RequestInit = RequestInit(verb: string, headers: map<string, string>,
                                     body: Option<RequestBody>, baseUrl: Option<string>)

  /** What would be handed to `fetch`. */
  datatype HttpRequest = HttpRequest(url: string, verb: string, headers: map<string, string>,
                                     body: Option<RequestBody>)

  /** How `fetch` answered: it rejected, or a non-ok status with the `error`
      member of its body (absent also when the body does not parse), or an ok
      status whose JSON body parsed or not. */
  datatype Reply<T> = Rejected(message: string) | NotOk(status: int, errorField: Option<string>)
                    | Ok(json: Result<T, string>)

  const ContentType: string := "Content-Type"
  const Authorization: string := "Authorization"

  predicate BodyTruthy(body: Option<RequestBody>) {
    body.Some? && (body.value.JsonText? ==> body.value.text != "")
  }

  predicate IsFormData(body: Option<RequestBody>) {
    body.Some? && body.value.Form?
  }

  /** `apiRequest` adds a JSON content type when there is a body, the caller
      gave no non-empty content type and the body is not a form. */
  predicate AddsJsonContentType(caller: map<string, string>, body: Option<RequestBody>) {
    BodyTruthy(body) && !(ContentType in caller && caller[ContentType] != "") && !IsFormData(body)
  }

  /** The header dictionary `apiRequest` sends: the caller's headers, plus a
      JSON content type for a non-form body that has none, plus the bearer
      token when there is one. */
  function HeadersFor(caller: map<string, string>, body: Option<RequestBody>, token: string): (h: map<string, string>)
    ensures AddsJsonContentType(caller, body) ==> ContentType in h && h[ContentType] == "application/json"
    ensures !AddsJsonContentType(caller, body) ==> (ContentType in h <==> ContentType in caller)
    ensures !AddsJsonContentType(caller, body) && ContentType in caller ==> h[ContentType] == caller[ContentType]
    ensures token != "" ==> Authorization in h && h[Authorization] == "Bearer " + token
    ensures token == "" ==> (Authorization in h <==> Authorization in caller)
    ensures token == "" && Authorization in caller ==> h[Authorization] == caller[Authorization]
    ensures forall k :: k != ContentType && k != Authorization ==>
              (k in h <==> k in caller) && (k in caller ==> h[k] == caller[k])
  {
    var h1 := if AddsJsonContentType(caller, body) then caller[ContentType := "application/json"] else caller;
    if token != "" then h1[Authorization := "Bearer " + token] else h1
  }

  /** The header-building steps of `apiRequest`, one assignment at a time. */
  method BuildHeaders(caller: map<string, string>, body: Option<RequestBody>, token: string)
    returns (headers: map<string, string>)
    ensures headers == HeadersFor(caller, body, token)
  {
    headers := caller;
    if BodyTruthy(body) && !(ContentType in headers && headers[ContentType] != "") && !IsFormData(body) {
      headers := headers[ContentType := "application/json"];
    }
    if token != "" {
      headers := headers[Authorization := "Bearer " + token];
    }
  }

  /** The request `apiRequest(path, init)` sends; `apiUrl` is `getApiUrl()`
      and `token` the configured token ("" when there is none). */
  function PrepareRequest(path: string, init: RequestInit, token: string, apiUrl: string): (r: HttpRequest)
    ensures Truthy(init.baseUrl) ==> r.url == init.baseUrl.value + path
    ensures !Truthy(init.baseUrl) ==> r.url == apiUrl + path
    ensures r.verb == init.verb && r.body == init.body
    ensures r.headers == HeadersFor(init.headers, init.body, token)
  {
    HttpRequest(OrElse(init.baseUrl, apiUrl) + path, init.verb, HeadersFor(init.headers, init.body, token), init.body)
  }

  /** The message of the error a non-ok reply throws. */
  function ErrorMessage(status: int, errorField: Option<string>): (m: string)
    ensures Truthy(errorField) ==> m == errorField.value
    ensures !Truthy(errorField) ==> m == "Request failed: " + IntToString(status)
    ensures m != ""
  {
    OrElse(errorField, "Request failed: " + IntToString(status))
  }

  /** What `apiRequest` resolves to, or the message of the error it throws. */
  function ApiResult<T>(reply: Reply<T>): (r: Result<T, string>)
    ensures r.Success? <==> reply.Ok? && reply.json.Success?
    ensures r.Success? ==> r.value == reply.json.value
    ensures reply.NotOk? ==> r == Failure(ErrorMessage(reply.status, reply.errorField))
  {
    match reply
    case Rejected(m) => Failure(m)
    case NotOk(status, field) => Failure(ErrorMessage(status, field))
    case Ok(json) => json
  }

  // ---------------------------------------------------------------------------
  // validateToken, listWorkflows

  datatype Validation = Validation(valid: bool, userId: Option<string>, error: Option<string>)

  function ValidateRequest(token: string, apiUrl: string): (r: HttpRequest)
    ensures r.url == apiUrl + "/api/cli/tokens/validate" && r.verb == "GET" && r.body.None?
  {
    PrepareRequest("/api/cli/tokens/validate", RequestInit("GET", map[], None, None), token, apiUrl)
  }

  /** `validateToken`: the server's answer, or `valid: false` carrying the
      message of whatever `apiRequest` threw; it never throws. */
  function ValidateToken(reply: Reply<Validation>): (v: Validation)
    ensures reply.Ok? && reply.json.Success? ==> v == reply.json.value
    ensures !(reply.Ok? && reply.json.Success?) ==> !v.valid && v.error == Some(ApiResult(reply).error)
    ensures reply.NotOk? ==> !v.valid && v.error == Some(ErrorMessage(reply.status, reply.errorField))
  {
    match ApiResult(reply)
    case Success(result) => result
    case Failure(message) => Validation(false, None, Some(message))
  }

  datatype Metadata = Metadata(name: Option<string>, description: Option<string>)
  datatype RawWorkflow = RawWorkflow(id: string, goal: Option<string>, metadata: Option<Metadata>)
  datatype WorkflowListItem = WorkflowListItem(id: string, title: string, description: string)

  /** One element of `listWorkflows`' mapping. */
  function WorkflowItem(w: RawWorkflow): (item: WorkflowListItem)
    ensures item.id == w.id
    ensures item.title != ""
    ensures w.metadata.Some? && Truthy(w.metadata.value.name) ==> item.title == w.metadata.value.name.value
    ensures !(w.metadata.Some? && Truthy(w.metadata.value.name)) && Truthy(w.goal) ==> item.title == w.goal.value
    ensures !(w.metadata.Some? && Truthy(w.metadata.value.name)) && !Truthy(w.goal) ==> item.title == "Untitled"
    ensures w.metadata.Some? && Truthy(w.metadata.value.description) ==> item.description == w.metadata.value.description.value
    ensures !(w.metadata.Some? && Truthy(w.metadata.value.description)) ==> item.description == ""
  {
    var name := if w.metadata.Some? then w.metadata.value.name else None;
    var description := if w.metadata.Some? then w.metadata.value.description else None;
    WorkflowListItem(w.id, OrElse(name, OrElse(w.goal, "Untitled")), OrElse(description, ""))
  }

  /** `listWorkflows`: one item per workflow, in the server's order. */
  function ListWorkflows(reply: Reply<seq<RawWorkflow>>): (r: Result<seq<WorkflowListItem>, string>)
    ensures r.Success? <==> ApiResult(reply).Success?
    ensures r.Failure? ==> r.error == ApiResult(reply).error
    ensures r.Success? ==> |r.value| == |ApiResult(reply).value|
    ensures r.Success? ==> forall i :: 0 <= i < |r.value| ==> r.value[i] == WorkflowItem(ApiResult(reply).value[i])
  {
    match ApiResult(reply)
    case Failure(m) => Failure(m)
    case Success(ws) => Success(seq(|ws|, i requires 0 <= i < |ws| => WorkflowItem(ws[i])))
  }

  // ---------------------------------------------------------------------------
  // submitTask

  datatype Transport = Json | Multipart

  /** `options` of `submitTask`; `gzip` stands for `compression: "gzip"`. */
  datatype SubmitOptions = SubmitOptions(gzip: bool, transport: Option<Transport>, agentSteps: Option<seq<string>>)

  datatype TaskCreated = TaskCreated(taskId: string, status: string)

  const TasksPath: string := "/api/cli/tasks"

  /** Multipart when asked for, or when the content is bytes and JSON was not
      asked for. */
  predicate UseMultipart(content: HarContent, options: SubmitOptions) {
    options.transport == Some(Multipart) || (content.Bytes? && options.transport != Some(Json))
  }

  /** `new TextEncoder().encode(s)`: UTF-8. */
  function Utf8Encode(s: string): (b: seq<byte>)
    ensures |s| <= |b| <= 4 * |s|
  {
    if |s| == 0 then [] else EncodeCodePoint(s[0]) + Utf8Encode(s[1..])
  }

  /** The UTF-8 sequence of one character: one byte below U+0080, then two,
      three and four bytes with the lead byte carrying the length. */
  function EncodeCodePoint(c: char): (b: seq<byte>)
    ensures 1 <= |b| <= 4
  {
    var v := c as int;
    if v < 0x80 then [v as byte]
    else if v < 0x800 then [(0xC0 + v / 64) as byte, (0x80 + v % 64) as byte]
    else if v < 0x10000 then [(0xE0 + v / 4096) as byte, (0x80 + (v / 64) % 64) as byte, (0x80 + v % 64) as byte]
    else [(0xF0 + v / 262144) as byte, (0x80 + (v / 4096) % 64) as byte, (0x80 + (v / 64) % 64) as byte,
          (0x80 + v % 64) as byte]
  }

  predicate IsContinuation(x: byte) {
    0x80 <= x < 0xC0
  }

  /** The six payload bits of a continuation byte. */
  function Payload(x: byte): int {
    x as int - 0x80
  }

  /** One UTF-8 sequence at the front of `b`: the character and the bytes
      after it. Overlong forms, surrogates and values past U+10FFFF are
      refused. */
  function DecodeCodePoint(b: seq<byte>): (r: Option<(char, seq<byte>)>)
    ensures r.Some? ==> |r.value.1| < |b|
  {
    if |b| == 0 then None
    else
      var lead := b[0] as int;
      if lead < 0x80 then Some((lead as char, b[1..]))
      else if 0xC0 <= lead < 0xE0 && |b| >= 2 && IsContinuation(b[1]) then
        var v := (lead - 0xC0) * 64 + Payload(b[1]);
        if v < 0x80 then None else Some((v as char, b[2..]))
      else if 0xE0 <= lead < 0xF0 && |b| >= 3 && IsContinuation(b[1]) && IsContinuation(b[2]) then
        var v := ((lead - 0xE0) * 64 + Payload(b[1])) * 64 + Payload(b[2]);
        if v < 0x800 || 0xD800 <= v < 0xE000 then None else Some((v as char, b[3..]))
      else if 0xF0 <= lead < 0xF8 && |b| >= 4 && IsContinuation(b[1]) && IsContinuation(b[2]) && IsContinuation(b[3]) then
        var v := (((lead - 0xF0) * 64 + Payload(b[1])) * 64 + Payload(b[2])) * 64 + Payload(b[3]);
        if v < 0x10000 || v >= 0x110000 then None else Some((v as char, b[4..]))
      else None
  }

  /** `new TextDecoder("utf-8", { fatal: true }).decode(b)`. */
  function Utf8Decode(b: seq<byte>): (r: Option<string>)
    decreases |b|
  {
    if |b| == 0 then Some("")
    else match DecodeCodePoint(b)
      case None => None
      case Some((c, rest)) =>
        match Utf8Decode(rest)
        case None => None
        case Some(s) => Some([c] + s)
  }

  /** The digits of `v` in base 64, most significant first. */
  lemma Radix64Digits(v: int)
    requires 0 <= v
    ensures (v / 64) * 64 + v % 64 == v
    ensures ((v / 4096) * 64 + (v / 64) % 64) * 64 + v % 64 == v
    ensures (((v / 262144) * 64 + (v / 4096) % 64) * 64 + (v / 64) % 64) * 64 + v % 64 == v
  {
  }

  /** A character encoded in two, three and four bytes decodes back. */
  lemma TwoBytes(c: char, rest: seq<byte>)
    requires 0x80 <= c as int < 0x800
    ensures DecodeCodePoint(EncodeCodePoint(c) + rest) == Some((c, rest))
  {
    var b := EncodeCodePoint(c) + rest;
    Radix64Digits(c as int);
    assert b[2..] == rest;
  }

  lemma ThreeBytes(c: char, rest: seq<byte>)
    requires 0x800 <= c as int < 0x10000
    ensures DecodeCodePoint(EncodeCodePoint(c) + rest) == Some((c, rest))
  {
    var b := EncodeCodePoint(c) + rest;
    Radix64Digits(c as int);
    assert b[3..] == rest;
  }

  lemma FourBytes(c: char, rest: seq<byte>)
    requires 0x10000 <= c as int
    ensures DecodeCodePoint(EncodeCodePoint(c) + rest) == Some((c, rest))
  {
    var b := EncodeCodePoint(c) + rest;
    Radix64Digits(c as int);
    assert b[4..] == rest;
  }

  /** Every character's encoding, followed by anything, decodes to the
      character and what follows. */
  lemma CodePointRoundTrip(c: char, rest: seq<byte>)
    ensures DecodeCodePoint(EncodeCodePoint(c) + rest) == Some((c, rest))
  {
    var v := c as int;
    if v < 0x80 {
      assert (EncodeCodePoint(c) + rest)[1..] == rest;
    } else if v < 0x800 {
      TwoBytes(c, rest);
    } else if v < 0x10000 {
      ThreeBytes(c, rest);
    } else {
      FourBytes(c, rest);
    }
  }

  /** Decoding what `Utf8Encode` produced gives the string back. */
  lemma {:induction false} Utf8RoundTrip(s: string)
    ensures Utf8Decode(Utf8Encode(s)) == Some(s)
  {
    if |s| > 0 {
      Utf8RoundTrip(s[1..]);
      CodePointRoundTrip(s[0], Utf8Encode(s[1..]));
      assert [s[0]] + s[1..] == s;
    }
  }

  /** The bytes of the `har` part: string content is UTF-8 encoded first. */
  function HarBytes(content: HarContent): seq<byte> {
    match content
    case Text(s) => Utf8Encode(s)
    case Bytes(b) => b
  }

  function ModelPart(model: Option<string>): seq<FormField> {
    if Truthy(model) then [TextField("model", model.value)] else []
  }

  function CompressionPart(gzip: bool): seq<FormField> {
    if gzip then [TextField("compression", "gzip")] else []
  }

  function StepsPart(steps: Option<seq<string>>): seq<FormField> {
    if steps.Some? && |steps.value| > 0 then [TextField("agentSteps", StringifyArray(steps.value))] else []
  }

  /** The form `submitTask` builds, as a list of parts in append order. */
  function FormFields(content: HarContent, prompt: string, model: Option<string>, options: SubmitOptions): seq<FormField>
  {
    [FileField("har", HarBytes(content), "application/gzip", "capture.har.gz"), TextField("prompt", prompt)]
    + ModelPart(model) + CompressionPart(options.gzip) + StepsPart(options.agentSteps)
  }

  /** The successive `form.append` calls of `submitTask`. */
  method BuildForm(content: HarContent, prompt: string, model: Option<string>, options: SubmitOptions)
    returns (form: seq<FormField>)
    ensures form == FormFields(content, prompt, model, options)
  {
    var payload := HarBytes(content);
    form := [];
    form := form + [FileField("har", payload, "application/gzip", "capture.har.gz")];
    form := form + [TextField("prompt", prompt)];
    ghost var head := form;
    assert head == [FileField("har", payload, "application/gzip", "capture.har.gz"), TextField("prompt", prompt)];
    if Truthy(model) {
      form := form + [TextField("model", model.value)];
    } else {
      assert form == head + [];
    }
    ghost var withModel := form;
    if options.gzip {
      form := form + [TextField("compression", "gzip")];
    } else {
      assert form == withModel + [];
    }
    ghost var withCompression := form;
    if options.agentSteps.Some? && |options.agentSteps.value| > 0 {
      form := form + [TextField("agentSteps", StringifyArray(options.agentSteps.value))];
    } else {
      assert form == withCompression + [];
    }
  }

  /** The first part with the given name, as `FormData.get` finds it. */
  function FieldNamed(form: seq<FormField>, name: string): (r: Option<FormField>)
    ensures r.Some? ==> r.value in form && r.value.name == name
    ensures r.None? <==> forall f :: f in form ==> f.name != name
  {
    if |form| == 0 then None
    else if form[0].name == name then Some(form[0])
    else FieldNamed(form[1..], name)
  }

  lemma {:induction false} FieldNamedConcat(a: seq<FormField>, b: seq<FormField>, name: string)
    ensures FieldNamed(a + b, name) == if FieldNamed(a, name).Some? then FieldNamed(a, name) else FieldNamed(b, name)
    decreases |a|
  {
    if |a| > 0 {
      assert (a + b)[1..] == a[1..] + b;
      FieldNamedConcat(a[1..], b, name);
    } else {
      assert a + b == b;
    }
  }

  /** Looking a name up in the whole form is looking it up in the four groups
      of parts in order. */
  lemma FormLookup(content: HarContent, prompt: string, model: Option<string>, options: SubmitOptions, name: string)
    ensures var head := [FileField("har", HarBytes(content), "application/gzip", "capture.har.gz"), TextField("prompt", prompt)];
      FieldNamed(FormFields(content, prompt, model, options), name)
      == if FieldNamed(head, name).Some? then FieldNamed(head, name)
         else if FieldNamed(ModelPart(model), name).Some? then FieldNamed(ModelPart(model), name)
         else if FieldNamed(CompressionPart(options.gzip), name).Some? then FieldNamed(CompressionPart(options.gzip), name)
         else FieldNamed(StepsPart(options.agentSteps), name)
  {
    var head := [FileField("har", HarBytes(content), "application/gzip", "capture.har.gz"), TextField("prompt", prompt)];
    var m, c, st := ModelPart(model), CompressionPart(options.gzip), StepsPart(options.agentSteps);
    FieldNamedConcat(head + m + c, st, name);
    FieldNamedConcat(head + m, c, name);
    FieldNamedConcat(head, m, name);
  }

  /** The multipart body starts with the capture part and the prompt. */
  lemma FormHead(content: HarContent, prompt: string, model: Option<string>, options: SubmitOptions)
    ensures var form := FormFields(content, prompt, model, options);
      && form[0] == FileField("har", HarBytes(content), "application/gzip", "capture.har.gz")
      && form[1] == TextField("prompt", prompt)
      && FieldNamed(form, "har") == Some(form[0])
      && FieldNamed(form, "prompt") == Some(form[1])
  {
    FormLookup(content, prompt, model, options, "har");
    FormLookup(content, prompt, model, options, "prompt");
  }

  /** The model is sent exactly when it is non-empty. */
  lemma FormModel(content: HarContent, prompt: string, model: Option<string>, options: SubmitOptions)
    ensures var form := FormFields(content, prompt, model, options);
      && (FieldNamed(form, "model").Some? <==> Truthy(model))
      && (Truthy(model) ==> FieldNamed(form, "model") == Some(TextField("model", model.value)))
  {
    FormLookup(content, prompt, model, options, "model");
  }

  /** The compression field is sent exactly when compression is set. */
  lemma FormCompression(content: HarContent, prompt: string, model: Option<string>, options: SubmitOptions)
    ensures var form := FormFields(content, prompt, model, options);
      && (FieldNamed(form, "compression").Some? <==> options.gzip)
      && (options.gzip ==> FieldNamed(form, "compression") == Some(TextField("compression", "gzip")))
  {
    FormLookup(content, prompt, model, options, "compression");
  }

  /** The agent steps are sent exactly when there are some, as a JSON text
      that parses back to the same list. */
  lemma FormAgentSteps(content: HarContent, prompt: string, model: Option<string>, options: SubmitOptions)
    ensures var f := FieldNamed(FormFields(content, prompt, model, options), "agentSteps");
      && (f.Some? <==> options.agentSteps.Some? && |options.agentSteps.value| > 0)
      && (f.Some? ==> f.value.TextField? && ParseArray(f.value.value) == options.agentSteps)
  {
    FormLookup(content, prompt, model, options, "agentSteps");
    if options.agentSteps.Some? && |options.agentSteps.value| > 0 {
      StringifyArrayRoundTrip(options.agentSteps.value);
    }
  }

  /** `JSON.stringify` of a `Uint8Array`: an object whose keys are the
      indices and whose values are the bytes. */
  function BytesJson(b: seq<byte>): JsonValue
  {
    JObject(seq(|b|, i requires 0 <= i < |b| => JsonMember(NatToString(i), JNumber(b[i] as nat))))
  }

  function ContentJson(content: HarContent): JsonValue
  {
    match content
    case Text(s) => JString(s)
    case Bytes(b) => BytesJson(b)
  }

  /** A member that is there only when its value is not `undefined`. */
  function OptionalMember(key: string, value: Option<JsonValue>): seq<JsonMember>
  {
    if value.Some? then [JsonMember(key, value.value)] else []
  }

  function OptionalString(s: Option<string>): Option<JsonValue>
  {
    if s.Some? then Some(JString(s.value)) else None
  }

  function CompressionValue(gzip: bool): Option<JsonValue>
  {
    if gzip then Some(JString("gzip")) else None
  }

  function StepsValue(steps: Option<seq<string>>): Option<JsonValue>
  {
    if steps.Some? then Some(StringArray(steps.value)) else None
  }

  function TaskHead(content: HarContent, prompt: string): seq<JsonMember>
  {
    [JsonMember("harContent", ContentJson(content)), JsonMember("prompt", JString(prompt))]
  }

  /** The members of the object the JSON transport serialises, in the order
      the object literal lists them; a member whose value is `undefined` is
      left out. */
  function TaskMembers(content: HarContent, prompt: string, model: Option<string>, options: SubmitOptions): seq<JsonMember>
  {
    TaskHead(content, prompt)
    + OptionalMember("model", OptionalString(model))
    + OptionalMember("compression", CompressionValue(options.gzip))
    + OptionalMember("agentSteps", StepsValue(options.agentSteps))
  }

  /** The text the JSON transport sends; it parses back to the object. */
  function TaskJsonBody(content: HarContent, prompt: string, model: Option<string>, options: SubmitOptions): (body: string)
    ensures Parse(body) == Some(JObject(TaskMembers(content, prompt, model, options)))
  {
    var v := JObject(TaskMembers(content, prompt, model, options));
    StringifyRoundTrip(v);
    Stringify(v)
  }

  lemma OptionalProperty(key: string, value: Option<JsonValue>, k: string)
    ensures Property(OptionalMember(key, value), k) == if k == key then value else None
  {
  }

  /** Looking a key up in the JSON object: each optional member answers for
      its own key, the two fixed members for theirs. */
  lemma TaskLookup(content: HarContent, prompt: string, model: Option<string>, options: SubmitOptions, key: string)
    ensures Property(TaskMembers(content, prompt, model, options), key)
            == if key == "agentSteps" then StepsValue(options.agentSteps)
               else if key == "compression" then CompressionValue(options.gzip)
               else if key == "model" then OptionalString(model)
               else Property(TaskHead(content, prompt), key)
  {
    var head := TaskHead(content, prompt);
    var m := OptionalMember("model", OptionalString(model));
    var c := OptionalMember("compression", CompressionValue(options.gzip));
    PropertyAppend(head + m + c, OptionalMember("agentSteps", StepsValue(options.agentSteps)), key);
    PropertyAppend(head + m, c, key);
    PropertyAppend(head, m, key);
    OptionalProperty("model", OptionalString(model), key);
    OptionalProperty("compression", CompressionValue(options.gzip), key);
    OptionalProperty("agentSteps", StepsValue(options.agentSteps), key);
  }

  /** What the service reads from the parsed JSON body: the content and the
      prompt, and the model, compression and steps exactly when they were
      given, the steps as the same list of strings. */
  lemma TaskJsonProperties(content: HarContent, prompt: string, model: Option<string>, options: SubmitOptions)
    ensures var ms := TaskMembers(content, prompt, model, options);
      && Property(ms, "harContent") == Some(ContentJson(content))
      && Property(ms, "prompt") == Some(JString(prompt))
      && Property(ms, "model") == (if model.Some? then Some(JString(model.value)) else None)
      && Property(ms, "compression") == (if options.gzip then Some(JString("gzip")) else None)
      && Property(ms, "agentSteps") == (if options.agentSteps.Some? then Some(StringArray(options.agentSteps.value)) else None)
  {
    TaskLookup(content, prompt, model, options, "harContent");
    TaskLookup(content, prompt, model, options, "prompt");
    TaskLookup(content, prompt, model, options, "model");
    TaskLookup(content, prompt, model, options, "compression");
    TaskLookup(content, prompt, model, options, "agentSteps");
  }

  /** The request `submitTask` sends, or the error it throws when multipart is
      needed and the runtime lacks `FormData` or `Blob`. */
  function SubmitRequest(content: HarContent, prompt: string, model: Option<string>, options: SubmitOptions,
                         formDataSupported: bool, token: string, apiUrl: string): (r: Result<HttpRequest, string>)
    ensures r.Failure? <==> UseMultipart(content, options) && !formDataSupported
    ensures r.Failure? ==> r.error == "Multipart upload not supported in this runtime"
    ensures r.Success? ==>
      && r.value.url == apiUrl + TasksPath
      && r.value.verb == "POST"
      && (UseMultipart(content, options) <==> IsFormData(r.value.body))
      && (UseMultipart(content, options) ==> r.value.body == Some(Form(FormFields(content, prompt, model, options)))
                                             && ContentType !in r.value.headers)
      && (!UseMultipart(content, options) ==> r.value.body == Some(JsonText(TaskJsonBody(content, prompt, model, options)))
                                              && ContentType in r.value.headers
                                              && r.value.headers[ContentType] == "application/json")
      && (Authorization in r.value.headers <==> token != "")
      && (token != "" ==> r.value.headers[Authorization] == "Bearer " + token)
  {
    if UseMultipart(content, options) then
      if !formDataSupported then Failure("Multipart upload not supported in this runtime")
      else
        var body := Some(Form(FormFields(content, prompt, model, options)));
        Success(PrepareRequest(TasksPath, RequestInit("POST", map[], body, None), token, apiUrl))
    else
      var body := Some(JsonText(TaskJsonBody(content, prompt, model, options)));
      Success(PrepareRequest(TasksPath, RequestInit("POST", map[], body, None), token, apiUrl))
  }

  /** One call of `submitTask`: the request it sends (none when it throws
      first) and what it resolves to or the message it throws. */
  datatype Submitted = Submitted(request: Option<HttpRequest>, result: Result<TaskCreated, string>)

  function SubmitTask(content: HarContent, prompt: string, model: Option<string>, options: SubmitOptions,
                      formDataSupported: bool, token: string, apiUrl: string, reply: Reply<TaskCreated>): (s: Submitted)
    ensures s.request.Some? <==> SubmitRequest(content, prompt, model, options, formDataSupported, token, apiUrl).Success?
    ensures s.request.Some? ==> s.request.value == SubmitRequest(content, prompt, model, options, formDataSupported, token, apiUrl).value
                                && s.result == ApiResult(reply)
    ensures s.request.None? ==> s.result == Failure("Multipart upload not supported in this runtime")
  {
    match SubmitRequest(content, prompt, model, options, formDataSupported, token, apiUrl)
    case Failure(e) => Submitted(None, Failure(e))
    case Success(request) => Submitted(Some(request), ApiResult(reply))
  }
}
