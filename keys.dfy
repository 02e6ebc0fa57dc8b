/**
 * The `keys` commands (src/commands/keys.ts): list the account's API keys
 * as a table with masked tokens, create a key, show the configured one.
 * Each command stops before any request when no token is configured.
 */
module Keys {
  import opened Common
  import opened Config
  import opened Api
  import JsonCodec

  /** One key as the service lists it. */
  datatype Token = Token(id: string, name: string, token: string, rateLimit: int, isDefault: bool,
                         createdAt: string, lastUsedAt: Option<string>)

  // ---------------------------------------------------------------------------
  // token.replace(/(.{8}).*(.{4})/, "$1...$2")

  /** The expression matches at `p` and ends at `end`: twelve or more
      characters none of which is a line end (`.` does not match one). */
  predicate MaskMatch(t: string, p: nat, end: nat) {
    p + 12 <= end <= |t| && forall i :: p <= i < end ==> !IsLineTerminator(t[i])
  }

  /** The first position from `p` on where a run of at least twelve
      characters other than line ends starts. */
  function LongRunFrom(t: string, p: nat): (r: Option<nat>)
    requires p <= |t|
    ensures r.Some? ==> p <= r.value <= |t| && r.value + 12 <= LineEnd(t, r.value)
    decreases |t| - p
  {
    if LineEnd(t, p) >= p + 12 then Some(p)
    else if p == |t| then None
    else LongRunFrom(t, p + 1)
  }

  /** No run of twelve starts between `p` and the position `LongRunFrom`
      reports. */
  lemma {:induction false} LongRunFirst(t: string, p: nat)
    requires p <= |t| && LongRunFrom(t, p).Some?
    ensures forall q :: p <= q < LongRunFrom(t, p).value ==> LineEnd(t, q) < q + 12
    decreases |t| - p
  {
    if LineEnd(t, p) < p + 12 {
      LongRunFirst(t, p + 1);
    }
  }

  /** When `LongRunFrom` reports nothing, no run of twelve starts from `p`
      on. */
  lemma {:induction false} LongRunNone(t: string, p: nat)
    requires p <= |t| && LongRunFrom(t, p).None?
    ensures forall q :: p <= q <= |t| ==> LineEnd(t, q) < q + 12
    decreases |t| - p
  {
    if p < |t| {
      LongRunNone(t, p + 1);
    }
  }

  /** The masked token: the first eight characters of the leftmost match, then
      `...`, then the last four of it (greedy `.*` runs to the end of that
      line); the text around the match is kept. */
  function MaskToken(t: string): string {
    match LongRunFrom(t, 0)
    case None => t
    case Some(p) =>
      var end := LineEnd(t, p);
      t[..p + 8] + "..." + t[end - 4..]
  }

  /** A match can only end where its line does. */
  lemma MaskMatchWithinLine(t: string, p: nat, end: nat)
    requires MaskMatch(t, p, end)
    ensures end <= LineEnd(t, p)
  {
  }

  /** Cutting the kept text and the match's kept ends apart. */
  lemma CutMatch(t: string, p: nat, end: nat)
    requires p + 12 <= end <= |t|
    ensures t[..p + 8] + "..." + t[end - 4..] == t[..p] + t[p..p + 8] + "..." + t[end - 4..end] + t[end..]
  {
    var head := t[..p] + t[p..p + 8] + "...";
    assert t[..p + 8] == t[..p] + t[p..p + 8];
    assert t[end - 4..] == t[end - 4..end] + t[end..];
    assert head + (t[end - 4..end] + t[end..]) == head + t[end - 4..end] + t[end..];
  }

  /** The masked token, cut at the match's start, after its first eight
      characters, before its last four and at its end. */
  lemma MaskPieces(t: string)
    requires LongRunFrom(t, 0).Some?
    ensures var p := LongRunFrom(t, 0).value;
            var end := LineEnd(t, p);
            MaskToken(t) == t[..p] + t[p..p + 8] + "..." + t[end - 4..end] + t[end..]
  {
    var p := LongRunFrom(t, 0).value;
    var end := LineEnd(t, p);
    assert MaskToken(t) == t[..p + 8] + "..." + t[end - 4..];
    CutMatch(t, p, end);
  }

  /** No match starts before the position `LongRunFrom` finds. */
  lemma NoEarlierMatch(t: string, p: nat)
    requires p <= |t| && forall q :: 0 <= q < p ==> LineEnd(t, q) < q + 12
    ensures forall q: nat, e: nat :: q < p && MaskMatch(t, q, e) ==> false
  {
    forall q: nat, e: nat | q < p && MaskMatch(t, q, e) ensures false {
      MaskMatchWithinLine(t, q, e);
    }
  }

  /** `MaskToken` rewrites the match the regular expression finds: the
      leftmost one, extended as far as it goes. */
  lemma MaskIsLeftmostLongest(t: string) returns (p: nat, end: nat)
    requires LongRunFrom(t, 0).Some?
    ensures MaskMatch(t, p, end)
    ensures MaskToken(t) == t[..p] + t[p..p + 8] + "..." + t[end - 4..end] + t[end..]
    ensures forall q: nat, e: nat :: q < p && MaskMatch(t, q, e) ==> false
    ensures forall e: nat :: MaskMatch(t, p, e) ==> e <= end
  {
    p := LongRunFrom(t, 0).value;
    end := LineEnd(t, p);
    MaskPieces(t);
    LongRunFirst(t, 0);
    NoEarlierMatch(t, p);
    forall e: nat | MaskMatch(t, p, e) ensures e <= end {
      MaskMatchWithinLine(t, p, e);
    }
  }

  /** Where the expression does not match, the token is printed as it is. */
  lemma MaskNoMatch(t: string)
    requires LongRunFrom(t, 0).None?
    ensures MaskToken(t) == t
    ensures forall q: nat, e: nat :: !MaskMatch(t, q, e)
  {
    LongRunNone(t, 0);
    forall q: nat, e: nat | MaskMatch(t, q, e) ensures false {
      MaskMatchWithinLine(t, q, e);
    }
  }

  /** A one-line token of twelve or more characters becomes its first eight,
      `...` and its last four: fifteen characters. */
  lemma MaskOneLine(t: string)
    requires |t| >= 12
    requires forall i :: 0 <= i < |t| ==> !IsLineTerminator(t[i])
    ensures MaskToken(t) == t[..8] + "..." + t[|t| - 4..]
    ensures |MaskToken(t)| == 15
  {
    assert LineEnd(t, 0) == |t|;
  }

  /** A token shorter than twelve characters is printed unchanged. */
  lemma ShortTokenUnmasked(t: string)
    requires |t| < 12
    ensures MaskToken(t) == t
  {
  }

  // ---------------------------------------------------------------------------
  // Output lines

  const NameWidth: nat := 20
  const TokenWidth: nat := 25

  function DefaultSuffix(isDefault: bool): string {
    if isDefault then " (DEFAULT)" else ""
  }

  /** One row of the key table. */
  function KeyLine(k: Token): string {
    PadEnd(k.name, NameWidth) + " " + PadEnd(MaskToken(k.token), TokenWidth)
    + " Limit: " + IntToString(k.rateLimit) + "/min" + DefaultSuffix(k.isDefault)
  }

  /** The row starts with the padded name and the padded masked token (the
      name itself being a prefix), and carries the ` (DEFAULT)` suffix
      exactly for the default key. */
  lemma KeyLineLaws(k: Token)
    ensures StartsWith(KeyLine(k), PadEnd(k.name, NameWidth) + " " + PadEnd(MaskToken(k.token), TokenWidth))
    ensures StartsWith(KeyLine(k), k.name)
    ensures EndsWith(KeyLine(k), " (DEFAULT)") <==> k.isDefault
  {
    var line := KeyLine(k);
    var head := PadEnd(k.name, NameWidth) + " " + PadEnd(MaskToken(k.token), TokenWidth);
    assert line == head + (" Limit: " + IntToString(k.rateLimit) + "/min" + DefaultSuffix(k.isDefault));
    assert line[..|head|] == head;
    assert line[..|k.name|] == head[..|k.name|];
    assert head[..|k.name|] == PadEnd(k.name, NameWidth)[..|k.name|];
    if !k.isDefault {
      assert line[|line| - 1] == 'n';
    }
  }

  /** The rule of `"".padEnd(n, "-")`. */
  function Rule(n: nat): (r: string)
    ensures |r| == n && forall i :: 0 <= i < n ==> r[i] == '-'
  {
    seq(n, _ => '-')
  }

  const NotAuthenticated: string := "Error: Not authenticated. Run 'grabbit auth' first."

  /** What one command prints, the request it sends and its exit code. */
  datatype KeysRun = KeysRun(request: Option<HttpRequest>, stdout: seq<string>, stderr: seq<string>, exitCode: int)

  function KeyLines(tokens: seq<Token>): (lines: seq<string>)
    ensures |lines| == |tokens|
    ensures forall i :: 0 <= i < |tokens| ==> lines[i] == KeyLine(tokens[i])
  {
    seq(|tokens|, i requires 0 <= i < |tokens| => KeyLine(tokens[i]))
  }

  /** The table `listKeys` prints for a non-empty list: a heading, a rule,
      one row per key in the list's order, a rule and a hint. */
  function KeyTable(tokens: seq<Token>): (lines: seq<string>)
    ensures |lines| == |tokens| + 4
    ensures lines[1] == Rule(60) && lines[|tokens| + 2] == Rule(60)
    ensures lines[2..|tokens| + 2] == KeyLines(tokens)
  {
    var rows := KeyLines(tokens);
    var lines := ["\nYour API Keys:", Rule(60)] + rows + [Rule(60), "\nUse 'grabbit keys create <name>' to generate a new key."];
    assert lines[2..|tokens| + 2] == rows;
    lines
  }

  /** `listKeys`. */
  function ListKeys(config: Option<Config>, apiUrl: string, reply: Reply<seq<Token>>): (r: KeysRun)
    ensures !HasToken(config) ==> r == KeysRun(None, [], [NotAuthenticated], 1)
    ensures HasToken(config) ==>
              && r.request == Some(PrepareRequest("/api/cli/tokens", RequestInit("GET", map[], None, None), config.value.token, apiUrl))
              && r.exitCode == 0
    ensures HasToken(config) && ApiResult(reply) == Success([]) ==> r.stdout == ["No API keys found."] && r.stderr == []
    ensures HasToken(config) && ApiResult(reply).Success? && |ApiResult(reply).value| > 0 ==>
              var tokens := ApiResult(reply).value;
              r.stdout == KeyTable(tokens) && r.stderr == []
    ensures HasToken(config) && ApiResult(reply).Failure? ==>
              r.stdout == [] && r.stderr == ["Error fetching keys: " + ApiResult(reply).error]
  {
    if !HasToken(config) then KeysRun(None, [], [NotAuthenticated], 1)
    else
      var request := PrepareRequest("/api/cli/tokens", RequestInit("GET", map[], None, None), config.value.token, apiUrl);
      match ApiResult(reply)
      case Failure(m) => KeysRun(Some(request), [], ["Error fetching keys: " + m], 0)
      case Success(tokens) =>
        if |tokens| == 0 then KeysRun(Some(request), ["No API keys found."], [], 0)
        else
          KeysRun(Some(request), KeyTable(tokens), [], 0)
  }

  /** The body `createKey` sends: `JSON.stringify({ name })`, which parses
      back to an object whose `name` is the key's name. */
  function CreateBody(name: string): (body: string)
    ensures var members := [JsonCodec.JsonMember("name", JsonCodec.JString(name))];
      JsonCodec.Parse(body) == Some(JsonCodec.JObject(members))
      && JsonCodec.Property(members, "name") == Some(JsonCodec.JString(name))
  {
    var v := JsonCodec.JObject([JsonCodec.JsonMember("name", JsonCodec.JString(name))]);
    JsonCodec.StringifyRoundTrip(v);
    JsonCodec.Stringify(v)
  }

  /** The request `createKey` sends: a JSON POST of the new key's name. */
  function CreateRequest(name: string, token: string, apiUrl: string): (r: HttpRequest)
    ensures r.url == apiUrl + "/api/cli/tokens" && r.verb == "POST" && r.body == Some(JsonText(CreateBody(name)))
    ensures ContentType in r.headers && r.headers[ContentType] == "application/json"
    ensures token != "" ==> Authorization in r.headers && r.headers[Authorization] == "Bearer " + token
  {
    PrepareRequest("/api/cli/tokens", RequestInit("POST", map[], Some(JsonText(CreateBody(name))), None), token, apiUrl)
  }

  /** What `createKey` prints for the new key: a heading, a rule, its name,
      its token, a rule and a warning that the token is shown only once. */
  function CreatedLines(t: Token): (lines: seq<string>)
    ensures |lines| == 6 && lines[1] == Rule(40) && lines[4] == Rule(40)
    ensures lines[2] == "Name:  " + t.name && lines[3] == "Token: " + t.token
  {
    ["\nAPI Key Created Successfully!", Rule(40), "Name:  " + t.name, "Token: " + t.token, Rule(40),
     "IMPORTANT: This token will only be shown once. Save it securely."]
  }

  /** `createKey`. */
  function CreateKey(name: string, config: Option<Config>, apiUrl: string, reply: Reply<Token>): (r: KeysRun)
    ensures !HasToken(config) ==> r == KeysRun(None, [], [NotAuthenticated], 1)
    ensures HasToken(config) ==> r.request == Some(CreateRequest(name, config.value.token, apiUrl)) && r.exitCode == 0
    ensures HasToken(config) && ApiResult(reply).Success? ==>
              r.stdout == CreatedLines(ApiResult(reply).value) && r.stderr == []
    ensures HasToken(config) && ApiResult(reply).Failure? ==>
              r.stdout == [] && r.stderr == ["Error creating key: " + ApiResult(reply).error]
  {
    if !HasToken(config) then KeysRun(None, [], [NotAuthenticated], 1)
    else
      var request := CreateRequest(name, config.value.token, apiUrl);
      match ApiResult(reply)
      case Failure(m) => KeysRun(Some(request), [], ["Error creating key: " + m], 0)
      case Success(t) =>
        KeysRun(Some(request), CreatedLines(t), [], 0)
  }

  /** `showKey`: prints the configured token; it sends no request at all. */
  function ShowKey(config: Option<Config>): (r: KeysRun)
    ensures r.request.None?
    ensures !HasToken(config) ==> r == KeysRun(None, [], [NotAuthenticated], 1)
    ensures HasToken(config) ==> r.exitCode == 0 && |r.stdout| == 5 && r.stdout[2] == config.value.token
  {
    if !HasToken(config) then KeysRun(None, [], [NotAuthenticated], 1)
    else
      KeysRun(None, ["\nCurrent API Key (from local config):", Rule(40), config.value.token, Rule(40),
                     "Tip: Set GRABBIT_API_KEY in your env manager."], [], 0)
  }
}
