/**
 * The `save` command (src/commands/save.ts): pull the prompt options out of
 * the prompt words, check the guards in their fixed order, export the
 * capture of the browser session, strip binary response bodies from it,
 * submit it compressed as a multipart upload and, on success, close the
 * browser session and forget the stored one.
 *
 * The export subprocess is given by its outcome and its parsed standard
 * output; `JSON.parse` of the capture, `JSON.stringify` and `gzipSync` are
 * functions passed in; the reply of the service is an input.
 */
module Save {
  import opened Common
  import opened Config
  import opened Api
  import Browse

  // ---------------------------------------------------------------------------
  // normalizePromptAndOptions

  predicate IsSessionFlag(token: string) {
    token == "--session" || token == "-s"
  }

  predicate IsModelFlag(token: string) {
    token == "--model" || token == "-m"
  }

  predicate IsOptionFlag(token: string) {
    IsSessionFlag(token) || IsModelFlag(token)
  }

  /** The words left for the prompt and the options after extraction. */
  datatype Normalized = Normalized(rest: seq<string>, session: Option<string>, model: Option<string>)

  function Prepend(words: seq<string>, n: Normalized): Normalized {
    n.(rest := words + n.rest)
  }

  lemma PrependTwice(a: seq<string>, b: seq<string>, n: Normalized)
    ensures Prepend(a, Prepend(b, n)) == Prepend(a + b, n)
  {
    assert a + (b + n.rest) == (a + b) + n.rest;
  }

  /** Left to right: an option flag followed by a non-empty word sets that
      option and both words go; every other word stays. */
  function Extract(parts: seq<string>, session: Option<string>, model: Option<string>): (n: Normalized)
    ensures |n.rest| <= |parts|
    decreases |parts|
  {
    if |parts| == 0 then Normalized([], session, model)
    else if IsSessionFlag(parts[0]) && |parts| > 1 && parts[1] != "" then Extract(parts[2..], Some(parts[1]), model)
    else if IsModelFlag(parts[0]) && |parts| > 1 && parts[1] != "" then Extract(parts[2..], session, Some(parts[1]))
    else Prepend([parts[0]], Extract(parts[1..], session, model))
  }

  /** One step of `Extract` at position `i` of the words. */
  lemma ExtractStep(parts: seq<string>, i: nat, session: Option<string>, model: Option<string>)
    requires i < |parts|
    ensures IsSessionFlag(parts[i]) && i + 1 < |parts| && parts[i + 1] != "" ==>
              Extract(parts[i..], session, model) == Extract(parts[i + 2..], Some(parts[i + 1]), model)
    ensures IsModelFlag(parts[i]) && i + 1 < |parts| && parts[i + 1] != "" ==>
              Extract(parts[i..], session, model) == Extract(parts[i + 2..], session, Some(parts[i + 1]))
    ensures !(IsOptionFlag(parts[i]) && i + 1 < |parts| && parts[i + 1] != "") ==>
              Extract(parts[i..], session, model) == Prepend([parts[i]], Extract(parts[i + 1..], session, model))
  {
    var t := parts[i..];
    assert t[0] == parts[i];
    assert t[1..] == parts[i + 1..];
    if i + 1 < |parts| {
      assert t[1] == parts[i + 1];
      assert t[2..] == parts[i + 2..];
    }
  }

  /** `normalizePromptAndOptions`: the splice loop over a copy of the words.
      After a splice the source steps its index back and the loop steps it
      forward again, so the index stays where it is. */
  method NormalizePromptAndOptions(promptParts: seq<string>, sessionOption: Option<string>, modelOption: Option<string>)
    returns (prompt: string, session: Option<string>, model: Option<string>)
    ensures var n := Extract(promptParts, sessionOption, modelOption);
      prompt == Trim(Join(n.rest, " ")) && session == n.session && model == n.model
  {
    var parts := promptParts;
    session, model := sessionOption, modelOption;
    var i := 0;
    assert parts[..i] + Extract(parts[i..], session, model).rest == Extract(parts[i..], session, model).rest;
    while i < |parts|
      invariant 0 <= i <= |parts|
      invariant Extract(promptParts, sessionOption, modelOption) == Prepend(parts[..i], Extract(parts[i..], session, model))
      decreases |parts| - i
    {
      var token := parts[i];
      ExtractStep(parts, i, session, model);
      ghost var before := parts;
      if IsSessionFlag(token) && i + 1 < |parts| && parts[i + 1] != "" {
        session := Some(parts[i + 1]);
        parts := parts[..i] + parts[i + 2..];
        assert parts[..i] == before[..i] && parts[i..] == before[i + 2..];
        continue;
      }
      if IsModelFlag(token) && i + 1 < |parts| && parts[i + 1] != "" {
        model := Some(parts[i + 1]);
        parts := parts[..i] + parts[i + 2..];
        assert parts[..i] == before[..i] && parts[i..] == before[i + 2..];
      } else {
        assert parts[..i + 1] == parts[..i] + [token];
        PrependTwice(parts[..i], [token], Extract(parts[i + 1..], session, model));
        i := i + 1;
      }
    }
    assert parts[i..] == [] && parts[..i] == parts;
    assert parts + [] == parts;
    prompt := Trim(Join(parts, " "));
  }

  /** With no option flag among the words, nothing is extracted. */
  lemma {:induction false} ExtractNoFlags(parts: seq<string>, session: Option<string>, model: Option<string>)
    requires forall k :: 0 <= k < |parts| ==> !IsOptionFlag(parts[k])
    ensures Extract(parts, session, model) == Normalized(parts, session, model)
    decreases |parts|
  {
    if |parts| > 0 {
      ExtractNoFlags(parts[1..], session, model);
      assert [parts[0]] + parts[1..] == parts;
    }
  }

  /** Extraction of a concatenation is extraction of each part in turn, when
      the first part does not end with an option flag (which would look at
      the first word of the second part). */
  lemma {:induction false} ExtractCompose(a: seq<string>, b: seq<string>, session: Option<string>, model: Option<string>)
    requires |a| == 0 || !IsOptionFlag(a[|a| - 1])
    ensures var n := Extract(a, session, model);
      Extract(a + b, session, model) == Prepend(n.rest, Extract(b, n.session, n.model))
    decreases |a|
  {
    var ab := a + b;
    if |a| == 0 {
      assert ab == b;
    } else if |a| >= 2 && IsOptionFlag(a[0]) && a[1] != "" {
      assert ab[0] == a[0] && ab[1] == a[1] && ab[2..] == a[2..] + b;
      if IsSessionFlag(a[0]) {
        ExtractCompose(a[2..], b, Some(a[1]), model);
      } else {
        ExtractCompose(a[2..], b, session, Some(a[1]));
      }
    } else {
      assert ab[0] == a[0] && ab[1..] == a[1..] + b;
      assert |a| == 1 ==> !IsOptionFlag(a[0]);
      assert |a| >= 2 ==> ab[1] == a[1];
      ExtractCompose(a[1..], b, session, model);
      var n := Extract(a[1..], session, model);
      PrependTwice([a[0]], n.rest, Extract(b, n.session, n.model));
    }
  }

  /** A flag pair added at the end wins over everything before it, and only
      sets its option. */
  lemma LastPairWins(parts: seq<string>, flag: string, value: string, session: Option<string>, model: Option<string>)
    requires |parts| == 0 || !IsOptionFlag(parts[|parts| - 1])
    requires IsOptionFlag(flag) && value != ""
    ensures var n := Extract(parts, session, model);
      var m := Extract(parts + [flag, value], session, model);
      && m.rest == n.rest
      && (IsSessionFlag(flag) ==> m.session == Some(value) && m.model == n.model)
      && (IsModelFlag(flag) ==> m.model == Some(value) && m.session == n.session)
  {
    ExtractCompose(parts, [flag, value], session, model);
    var n := Extract(parts, session, model);
    assert [flag, value][2..] == [];
    assert n.rest + [] == n.rest;
  }

  /** A flag in last position stays among the prompt words. */
  lemma TrailingFlagStays(parts: seq<string>, flag: string, session: Option<string>, model: Option<string>)
    requires |parts| == 0 || !IsOptionFlag(parts[|parts| - 1])
    requires IsOptionFlag(flag)
    ensures var n := Extract(parts, session, model);
      Extract(parts + [flag], session, model) == Normalized(n.rest + [flag], n.session, n.model)
  {
    ExtractCompose(parts, [flag], session, model);
    var n := Extract(parts, session, model);
    assert Extract([flag], n.session, n.model) == Prepend([flag], Extract([], n.session, n.model));
  }

  /** A flag followed by an empty word stays, and so does the empty word. */
  lemma EmptyValueStays(flag: string, more: seq<string>, session: Option<string>, model: Option<string>)
    requires IsOptionFlag(flag)
    ensures Extract([flag, ""] + more, session, model)
            == Prepend([flag, ""], Extract(more, session, model))
  {
    var t := [flag, ""] + more;
    assert t[0..] == t && t[1] == "" && t[2..] == more;
    ExtractStep(t, 0, session, model);
    ExtractStep(t, 1, session, model);
    PrependTwice([flag], [""], Extract(more, session, model));
    assert [flag] + [""] == [flag, ""];
  }

  /** No option flag left among the words is followed by a non-empty word. */
  predicate NoOptionPair(words: seq<string>) {
    forall k :: 0 <= k < |words| - 1 && IsOptionFlag(words[k]) ==> words[k + 1] == ""
  }

  lemma {:induction false} ExtractLeavesNoPair(parts: seq<string>, session: Option<string>, model: Option<string>)
    ensures NoOptionPair(Extract(parts, session, model).rest)
    decreases |parts|
  {
    if |parts| == 0 {
    } else if IsSessionFlag(parts[0]) && |parts| > 1 && parts[1] != "" {
      ExtractLeavesNoPair(parts[2..], Some(parts[1]), model);
    } else if IsModelFlag(parts[0]) && |parts| > 1 && parts[1] != "" {
      ExtractLeavesNoPair(parts[2..], session, Some(parts[1]));
    } else {
      ExtractLeavesNoPair(parts[1..], session, model);
      var tail := Extract(parts[1..], session, model).rest;
      var rest := [parts[0]] + tail;
      assert Extract(parts, session, model).rest == rest;
      if IsOptionFlag(parts[0]) && |tail| > 0 {
        assert parts[1] == "";
        assert Extract(parts[1..], session, model) == Prepend([""], Extract(parts[2..], session, model));
      }
      forall k | 0 <= k < |rest| - 1 && IsOptionFlag(rest[k]) ensures rest[k + 1] == "" {
        if k > 0 {
          assert rest[k] == tail[k - 1] && rest[k + 1] == tail[k];
        }
      }
    }
  }

  lemma {:induction false} ExtractWithoutPairs(words: seq<string>, session: Option<string>, model: Option<string>)
    requires NoOptionPair(words)
    ensures Extract(words, session, model) == Normalized(words, session, model)
    decreases |words|
  {
    if |words| > 0 {
      assert NoOptionPair(words[1..]) by {
        forall k | 0 <= k < |words[1..]| - 1 && IsOptionFlag(words[1..][k]) ensures words[1..][k + 1] == "" {
          assert words[1..][k] == words[k + 1];
        }
      }
      ExtractWithoutPairs(words[1..], session, model);
      assert [words[0]] + words[1..] == words;
    }
  }

  /** Normalising what normalisation left changes nothing. */
  lemma ExtractIdempotent(parts: seq<string>, session: Option<string>, model: Option<string>)
    ensures var n := Extract(parts, session, model);
      Extract(n.rest, n.session, n.model) == n
  {
    var n := Extract(parts, session, model);
    ExtractLeavesNoPair(parts, session, model);
    ExtractWithoutPairs(n.rest, n.session, n.model);
  }

  // ---------------------------------------------------------------------------
  // exportHarFromBrowser

  /** The part of the export's JSON output that is read: `success` and
      `data.har`. */
  datatype ExportEnvelope = ExportEnvelope(success: bool, har: Option<string>)

  function ExportCommand(sessionName: string): seq<string> {
    ["--session", sessionName, "har", "export", "--json"]
  }

  /** The capture the export yields: only a close code of 0, an output that
      parses, a true `success` and a non-empty `data.har` give one. */
  function DecodeExport(run: RunOutcome, envelope: Option<ExportEnvelope>): (har: Option<string>)
    ensures har.Some? <==> run == Exited(Some(0)) && envelope.Some? && envelope.value.success && Truthy(envelope.value.har)
    ensures har.Some? ==> har == envelope.value.har && har.value != ""
  {
    if run != Exited(Some(0)) then None
    else match envelope
      case None => None
      case Some(e) => if e.success && Truthy(e.har) then e.har else None
  }

  // ---------------------------------------------------------------------------
  // The capture and its filter

  datatype Content = Content(mimeType: Option<string>, text: Option<string>, size: int)
  datatype Response = Response(status: int, content: Option<Content>)
  /** One request/response pair; `request` stands for everything the filter
      never looks at. */
  datatype Entry = Entry(request: string, response: Option<Response>)
  datatype HarLog = HarLog(entries: Option<seq<Entry>>, creator: string)
  datatype HarDoc = HarDoc(log: Option<HarLog>)

  const Placeholder: string := "(Body removed: binary response)"

  /** `entry.response?.content?.mimeType || ""`. */
  function MimeOf(e: Entry): string {
    if e.response.Some? && e.response.value.content.Some? then OrElse(e.response.value.content.value.mimeType, "") else ""
  }

  /** `entry.response?.content?.text`. */
  function BodyOf(e: Entry): Option<string> {
    if e.response.Some? && e.response.value.content.Some? then e.response.value.content.value.text else None
  }

  predicate IsTextMime(mime: string) {
    Contains(mime, "json") || Contains(mime, "text") || Contains(mime, "javascript") || Contains(mime, "xml")
  }

  /** An entry whose body the filter replaces. */
  predicate Strippable(e: Entry) {
    !IsTextMime(MimeOf(e)) && Truthy(BodyOf(e))
  }

  /** Everything except the response body is the same. */
  predicate SameExceptBody(a: Entry, b: Entry) {
    && a.request == b.request
    && a.response.Some? == b.response.Some?
    && (a.response.Some? ==>
          && a.response.value.status == b.response.value.status
          && a.response.value.content.Some? == b.response.value.content.Some?
          && (a.response.value.content.Some? ==>
                && a.response.value.content.value.mimeType == b.response.value.content.value.mimeType
                && a.response.value.content.value.size == b.response.value.content.value.size))
  }

  /** What the filter does to one entry. */
  function StripEntry(e: Entry): (r: Entry)
    ensures SameExceptBody(e, r) && MimeOf(r) == MimeOf(e)
    ensures Strippable(e) ==> BodyOf(r) == Some(Placeholder)
    ensures !Strippable(e) ==> r == e
  {
    if Strippable(e) then
      var resp := e.response.value;
      var content := resp.content.value;
      e.(response := Some(resp.(content := Some(content.(text := Some(Placeholder))))))
    else e
  }

  /** The entries after the filter. */
  function FilterEntries(entries: seq<Entry>): (r: seq<Entry>)
    ensures |r| == |entries|
    ensures forall i :: 0 <= i < |entries| ==> r[i] == StripEntry(entries[i])
  {
    seq(|entries|, i requires 0 <= i < |entries| => StripEntry(entries[i]))
  }

  /** The number of entries the filter strips, counted as the source counts:
      one per stripped entry, in order. */
  function CountStripped(entries: seq<Entry>): nat
  {
    if |entries| == 0 then 0
    else CountStripped(entries[..|entries| - 1]) + (if Strippable(entries[|entries| - 1]) then 1 else 0)
  }

  function StrippedIndices(entries: seq<Entry>): set<nat> {
    set i: nat | i < |entries| && Strippable(entries[i])
  }

  lemma StrippedIndicesStep(entries: seq<Entry>)
    requires |entries| > 0
    ensures var n := |entries| - 1;
      StrippedIndices(entries) == StrippedIndices(entries[..n]) + (if Strippable(entries[n]) then {n} else {})
  {
    var n := |entries| - 1;
    var s, t := StrippedIndices(entries), StrippedIndices(entries[..n]);
    var last: set<nat> := if Strippable(entries[n]) then {n} else {};
    forall i: nat ensures i in s <==> i in t + last {
      if i < n {
        assert entries[..n][i] == entries[i];
      }
    }
  }

  /** `filteredCount` is the number of entries whose body was replaced. */
  lemma {:induction false} CountStrippedIsCardinality(entries: seq<Entry>)
    ensures CountStripped(entries) == |StrippedIndices(entries)|
    decreases |entries|
  {
    if |entries| > 0 {
      var n := |entries| - 1;
      CountStrippedIsCardinality(entries[..n]);
      StrippedIndicesStep(entries);
      assert n !in StrippedIndices(entries[..n]);
    }
  }

  /** Entries the filter strips stay strippable, so running it again changes
      nothing more. */
  lemma FilterIdempotent(entries: seq<Entry>)
    ensures FilterEntries(FilterEntries(entries)) == FilterEntries(entries)
    ensures StrippedIndices(FilterEntries(entries)) == StrippedIndices(entries)
  {
    var f := FilterEntries(entries);
    forall i | 0 <= i < |entries| ensures StripEntry(f[i]) == f[i] && (Strippable(f[i]) <==> Strippable(entries[i])) {
      if Strippable(entries[i]) {
        assert BodyOf(f[i]) == Some(Placeholder);
      }
    }
  }

  /** The filter in place: each entry is replaced by its stripped form and
      the stripped ones are counted. */
  method StripBinaryBodies(entries: array<Entry>) returns (filteredCount: nat)
    modifies entries
    ensures entries[..] == FilterEntries(old(entries[..]))
    ensures filteredCount == CountStripped(old(entries[..]))
  {
    ghost var original := entries[..];
    filteredCount := 0;
    var i := 0;
    while i < entries.Length
      invariant 0 <= i <= entries.Length
      invariant forall j :: 0 <= j < i ==> entries[j] == StripEntry(original[j])
      invariant forall j :: i <= j < entries.Length ==> entries[j] == original[j]
      invariant filteredCount == CountStripped(original[..i])
    {
      var entry := entries[i];
      assert original[..i + 1][..i] == original[..i];
      assert CountStripped(original[..i + 1]) == CountStripped(original[..i]) + if Strippable(entry) then 1 else 0;
      if Strippable(entry) {
        entries[i] := StripEntry(entry);
        filteredCount := filteredCount + 1;
      }
      i := i + 1;
    }
    assert original[..i] == original;
    assert entries[..] == FilterEntries(original);
  }

  /** `harData.log?.entries ?? []`. */
  function EntriesOf(doc: HarDoc): seq<Entry> {
    if doc.log.Some? && doc.log.value.entries.Some? then doc.log.value.entries.value else []
  }

  /** The document after `harData.log.entries = …`; only called with a log. */
  function WithEntries(doc: HarDoc, entries: seq<Entry>): (d: HarDoc)
    requires doc.log.Some?
    ensures EntriesOf(d) == entries
    ensures d.log.Some? && d.log.value.creator == doc.log.value.creator
  {
    doc.(log := Some(doc.log.value.(entries := Some(entries))))
  }

  // ---------------------------------------------------------------------------
  // save

  datatype SaveError =
    | NotAuthenticated
    | MissingPrompt
    | NoActiveSession
    | ExportFailed
    | InvalidHar
    | NoRequests
    | SubmitFailed(message: string)

  /** What one `save` does: the browser commands it runs, the number of
      entries it reports captured and stripped, the document it submits and
      the request it sends, how it ends, and whether it forgets the stored
      session. */
  datatype SaveRun = SaveRun(issued: seq<seq<string>>, captured: Option<nat>, stripped: nat,
                             submittedHar: Option<HarDoc>, submission: Option<Submitted>,
                             outcome: Result<TaskCreated, SaveError>, clearsSession: bool)

  function ExitCode(outcome: Result<TaskCreated, SaveError>): int {
    if outcome.Success? then 0 else 1
  }

  /** `session ?? currentSession?.sessionName`. */
  function SessionNameFor(session: Option<string>, stored: Option<Session>): (r: Option<string>)
    ensures session.Some? ==> r == session
    ensures session.None? && stored.Some? ==> r == stored.value.sessionName
    ensures session.None? && stored.None? ==> r.None?
  {
    if session.Some? then session else if stored.Some? then stored.value.sessionName else None
  }

  /** The options `save` submits with. */
  const SaveSubmitOptions: SubmitOptions := SubmitOptions(true, Some(Multipart), None)

  function SaveFailure(issued: seq<seq<string>>, captured: Option<nat>, e: SaveError): SaveRun {
    SaveRun(issued, captured, 0, None, None, Failure(e), false)
  }

  /** The outside world as `save` meets it. */
  datatype World = World(
    config: Option<Config>,
    stored: Option<Session>,
    exportRun: RunOutcome,
    envelope: Option<ExportEnvelope>,
    parseHar: string -> Option<HarDoc>,
    stringify: HarDoc -> string,
    gzip: string -> seq<byte>,
    formDataSupported: bool,
    apiUrl: string,
    reply: Reply<TaskCreated>)

  /** What `save` does once its guards have passed: export the capture of
      session `name`, filter it and submit it. */
  function ExportAndSubmit(name: string, prompt: string, model: Option<string>, token: string, w: World): (r: SaveRun)
    ensures |r.issued| >= 1 && r.issued[0] == ExportCommand(name)
    ensures r.outcome == Failure(ExportFailed) <==> DecodeExport(w.exportRun, w.envelope).None?
    ensures r.outcome !in {Failure(NotAuthenticated), Failure(MissingPrompt), Failure(NoActiveSession)}
    ensures r.submission.Some? ==> r.captured.Some? && r.captured.value > 0
    ensures r.clearsSession <==> r.outcome.Success?
    ensures r.outcome.Success? ==> r.issued == [ExportCommand(name), Browse.CloseCommand(name)]
    ensures r.outcome.Failure? ==> r.issued == [ExportCommand(name)]
    // Each failure before the upload happens exactly in its own case, and the
    // count printed is the number of entries the parsed capture holds.
    ensures var h := DecodeExport(w.exportRun, w.envelope);
      && (r.outcome == Failure(InvalidHar) <==> h.Some? && w.parseHar(h.value).None?)
      && (r.outcome == Failure(NoRequests) <==>
            h.Some? && w.parseHar(h.value).Some? && |EntriesOf(w.parseHar(h.value).value)| == 0)
      && (r.captured.Some? <==> h.Some? && w.parseHar(h.value).Some?)
      && (r.captured.Some? ==> r.captured.value == |EntriesOf(w.parseHar(h.value).value)|)
    // What is uploaded is the capture with its entries filtered, serialised
    // and gzip-compressed, as a multipart upload; the outcome is the upload's.
    ensures r.submission.Some? <==> r.submittedHar.Some?
    ensures r.submittedHar.Some? ==>
      var doc := w.parseHar(DecodeExport(w.exportRun, w.envelope).value).value;
      && r.submittedHar.value == WithEntries(doc, FilterEntries(EntriesOf(doc)))
      && r.stripped == CountStripped(EntriesOf(doc))
      && r.submission.value == SubmitTask(Bytes(w.gzip(w.stringify(r.submittedHar.value))), prompt, model,
                                          SaveSubmitOptions, w.formDataSupported, token, w.apiUrl, w.reply)
    ensures r.submission.Some? ==>
      match r.submission.value.result
      case Success(task) => r.outcome == Success(task)
      case Failure(m) => r.outcome == Failure(SubmitFailed(m))
  {
    var exportCmd := ExportCommand(name);
    match DecodeExport(w.exportRun, w.envelope)
    case None => SaveFailure([exportCmd], None, ExportFailed)
    case Some(har) =>
      match w.parseHar(har)
      case None => SaveFailure([exportCmd], None, InvalidHar)
      case Some(doc) =>
        var entries := EntriesOf(doc);
        if |entries| == 0 then SaveFailure([exportCmd], Some(0), NoRequests)
        else
          var filtered := WithEntries(doc, FilterEntries(entries));
          var compressed := w.gzip(w.stringify(filtered));
          var sub := SubmitTask(Bytes(compressed), prompt, model, SaveSubmitOptions,
                                w.formDataSupported, token, w.apiUrl, w.reply);
          match sub.result
          case Failure(m) =>
            SaveRun([exportCmd], Some(|entries|), CountStripped(entries), Some(filtered), Some(sub),
                    Failure(SubmitFailed(m)), false)
          case Success(task) =>
            SaveRun([exportCmd, Browse.CloseCommand(name)], Some(|entries|), CountStripped(entries),
                    Some(filtered), Some(sub), Success(task), true)
  }

  /** The decisions of `save` in order: authentication, prompt and session
      name are checked before anything runs; then the export. */
  function SavePlan(promptParts: seq<string>, sessionOption: Option<string>, modelOption: Option<string>, w: World): (r: SaveRun)
    ensures var n := Extract(promptParts, sessionOption, modelOption);
      var name := SessionNameFor(n.session, w.stored);
      && (!HasToken(w.config) <==> r.outcome == Failure(NotAuthenticated))
      && (r.outcome == Failure(MissingPrompt) <==> HasToken(w.config) && Trim(Join(n.rest, " ")) == "")
      && (r.outcome == Failure(NoActiveSession) <==>
            HasToken(w.config) && Trim(Join(n.rest, " ")) != "" && !Truthy(name))
      && (r.issued == [] <==> r.outcome in {Failure(NotAuthenticated), Failure(MissingPrompt), Failure(NoActiveSession)})
      && (r.issued != [] ==> Truthy(name) && r.issued[0] == ExportCommand(name.value))
      && (r.outcome == Failure(ExportFailed) <==> r.issued != [] && DecodeExport(w.exportRun, w.envelope).None?)
      && (r.submission.Some? ==> r.captured.Some? && r.captured.value > 0)
      && (r.clearsSession <==> r.outcome.Success?)
      && (r.outcome.Success? ==> r.issued == [ExportCommand(name.value), Browse.CloseCommand(name.value)])
      && (r.outcome.Failure? ==> |r.issued| <= 1)
  {
    var n := Extract(promptParts, sessionOption, modelOption);
    var prompt := Trim(Join(n.rest, " "));
    var name := SessionNameFor(n.session, w.stored);
    if !HasToken(w.config) then SaveFailure([], None, NotAuthenticated)
    else if prompt == "" then SaveFailure([], None, MissingPrompt)
    else if !Truthy(name) then SaveFailure([], None, NoActiveSession)
    else ExportAndSubmit(name.value, prompt, n.model, w.config.value.token, w)
  }

  /** After the guards: what is submitted is the parsed capture with exactly
      its binary bodies replaced, compressed, as a multipart upload to the
      tasks endpoint. */
  lemma ExportedCapture(name: string, prompt: string, model: Option<string>, token: string, w: World)
    ensures var r := ExportAndSubmit(name, prompt, model, token, w);
      r.submittedHar.Some? ==>
        && DecodeExport(w.exportRun, w.envelope).Some?
        && var har := DecodeExport(w.exportRun, w.envelope).value;
        && w.parseHar(har).Some?
        && var entries := EntriesOf(w.parseHar(har).value);
        && r.captured == Some(|entries|)
        && EntriesOf(r.submittedHar.value) == FilterEntries(entries)
        && r.stripped == |StrippedIndices(entries)|
        && r.submission.Some?
        && (r.submission.value.request.Some? ==>
              && r.submission.value.request.value.url == w.apiUrl + TasksPath
              && r.submission.value.request.value.body.Some?
              && r.submission.value.request.value.body.value.Form?)
  {
    var r := ExportAndSubmit(name, prompt, model, token, w);
    if r.submittedHar.Some? {
      var har := DecodeExport(w.exportRun, w.envelope).value;
      CountStrippedIsCardinality(EntriesOf(w.parseHar(har).value));
    }
  }

  /** The same for the whole command: a capture is submitted only once the
      guards have passed, and it is the filtered export of the session. */
  lemma SubmittedCapture(promptParts: seq<string>, sessionOption: Option<string>, modelOption: Option<string>, w: World)
    ensures var r := SavePlan(promptParts, sessionOption, modelOption, w);
      r.submittedHar.Some? ==>
        && HasToken(w.config)
        && var n := Extract(promptParts, sessionOption, modelOption);
        && Trim(Join(n.rest, " ")) != ""
        && Truthy(SessionNameFor(n.session, w.stored))
        && r == ExportAndSubmit(SessionNameFor(n.session, w.stored).value, Trim(Join(n.rest, " ")), n.model,
                                w.config.value.token, w)
  {
  }

  /** `save` itself, against the session store: the stored session is read
      before anything else and forgotten only after a successful submission
      and the close of the browser session. */
  method Run(store: SessionStore, configs: ConfigStore, promptParts: seq<string>,
             sessionOption: Option<string>, modelOption: Option<string>, w: World)
    returns (r: SaveRun)
    requires w.config == configs.GetConfig() && w.stored == store.GetSession()
    modifies store
    ensures r == SavePlan(promptParts, sessionOption, modelOption, w)
    ensures r.clearsSession ==> store.file == Missing
    ensures !r.clearsSession ==> store.file == old(store.file)
  {
    var prompt, session, model := NormalizePromptAndOptions(promptParts, sessionOption, modelOption);
    var config := configs.GetConfig();
    var currentSession := store.GetSession();
    var sessionName := SessionNameFor(session, currentSession);
    if !HasToken(config) {
      return SaveFailure([], None, NotAuthenticated);
    }
    if prompt == "" {
      return SaveFailure([], None, MissingPrompt);
    }
    if !Truthy(sessionName) {
      return SaveFailure([], None, NoActiveSession);
    }
    r := ExportFilterSubmit(store, sessionName.value, prompt, model, config.value.token, w);
  }

  /** The part of `save` after its guards. */
  method ExportFilterSubmit(store: SessionStore, name: string, prompt: string, model: Option<string>,
                            token: string, w: World)
    returns (r: SaveRun)
    modifies store
    ensures r == ExportAndSubmit(name, prompt, model, token, w)
    ensures r.clearsSession ==> store.file == Missing
    ensures !r.clearsSession ==> store.file == old(store.file)
  {
    var exportCmd := ExportCommand(name);
    var har := DecodeExport(w.exportRun, w.envelope);
    if har.None? {
      return SaveFailure([exportCmd], None, ExportFailed);
    }
    var harData := w.parseHar(har.value);
    if harData.None? {
      return SaveFailure([exportCmd], None, InvalidHar);
    }
    var entries := EntriesOf(harData.value);
    if |entries| == 0 {
      return SaveFailure([exportCmd], Some(0), NoRequests);
    }
    var buffer := new Entry[|entries|](i requires 0 <= i < |entries| => entries[i]);
    assert buffer[..] == entries;
    var filteredCount := StripBinaryBodies(buffer);
    var filtered := WithEntries(harData.value, buffer[..]);
    var compressed := w.gzip(w.stringify(filtered));
    var sub := SubmitTask(Bytes(compressed), prompt, model, SaveSubmitOptions,
                          w.formDataSupported, token, w.apiUrl, w.reply);
    if sub.result.Failure? {
      return SaveRun([exportCmd], Some(|entries|), filteredCount, Some(filtered), Some(sub),
                     Failure(SubmitFailed(sub.result.error)), false);
    }
    r := SaveRun([exportCmd, Browse.CloseCommand(name)], Some(|entries|), filteredCount,
                 Some(filtered), Some(sub), Success(sub.result.value), true);
    store.ClearSession();
  }
}
