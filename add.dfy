/**
 * The `add` command (src/commands/add.ts): after its guards, fetch the
 * skill document of a workflow, read its `name:` and `description:` lines,
 * and install it under `.agents/skills/<name>` of the working directory.
 *
 * The two metadata lines are read with `^name:\s*(.+)$` and
 * `^description:\s*(.+)$` under the multiline flag; the matcher below follows
 * the regular expression's own search order (leftmost line start, then the
 * longest run of white space that still lets `.+` match), so `\s*` can run
 * across line ends exactly as it does in the source.
 */
module Add {
  import opened Common
  import opened Config
  import opened Api

  // ---------------------------------------------------------------------------
  // `^key\s*(.+)$` with the `m` flag

  predicate AtLineStart(s: string, p: nat) {
    p == 0 || (p <= |s| && IsLineTerminator(s[p - 1]))
  }

  /** The regular expression matches at line start `p`, with `\s*` ending at
      `k` and the captured `.+` being `s[k..end]`. */
  predicate FieldMatch(s: string, key: string, p: nat, k: nat, end: nat) {
    && p + |key| <= k < end <= |s|
    && AtLineStart(s, p)
    && s[p..p + |key|] == key
    && (forall i :: p + |key| <= i < k ==> IsWhitespace(s[i]))
    && (forall i :: k <= i < end ==> !IsLineTerminator(s[i]))
    && (end == |s| || IsLineTerminator(s[end]))
  }

  /** The first position at or after `k` that is not white space. */
  function SpaceEnd(s: string, k: nat): (e: nat)
    requires k <= |s|
    ensures k <= e <= |s|
    ensures forall i :: k <= i < e ==> IsWhitespace(s[i])
    ensures e == |s| || !IsWhitespace(s[e])
    decreases |s| - k
  {
    if k == |s| || !IsWhitespace(s[k]) then k else SpaceEnd(s, k + 1)
  }

  /** The last position in `[lo, hi)` that is not a line terminator. */
  function LastOnLine(s: string, lo: nat, hi: nat): (r: Option<nat>)
    requires lo <= hi <= |s|
    ensures r.Some? ==> lo <= r.value < hi && !IsLineTerminator(s[r.value])
    ensures r.Some? ==> forall i :: r.value < i < hi ==> IsLineTerminator(s[i])
    ensures r.None? ==> forall i :: lo <= i < hi ==> IsLineTerminator(s[i])
    decreases hi - lo
  {
    if lo == hi then None
    else if !IsLineTerminator(s[hi - 1]) then Some(hi - 1)
    else LastOnLine(s, lo, hi - 1)
  }

  /** The match the regular expression finds when it tries line start `p`:
      greedy `\s*` first takes all the white space; `.+` then needs one
      character that is not a line end, so when only white space is left
      before the end of the text, `\s*` gives back characters until one that
      is not a line end can be captured. */
  function MatchAt(s: string, key: string, p: nat): (r: Option<(nat, nat)>)
    requires p <= |s|
    ensures r.Some? ==> FieldMatch(s, key, p, r.value.0, r.value.1)
  {
    if !(p + |key| <= |s| && AtLineStart(s, p) && s[p..p + |key|] == key) then None
    else
      var q := p + |key|;
      var e := SpaceEnd(s, q);
      if e < |s| then
        assert !IsLineTerminator(s[e]);
        Some((e, LineEnd(s, e)))
      else
        match LastOnLine(s, q, e)
        case None => None
        case Some(k) => Some((k, LineEnd(s, k)))
  }

  /** Once `\s*` has stopped at `k`, `.+` and `$` leave only one place for
      the match to end: the end of that line. */
  lemma MatchEndIsLineEnd(s: string, key: string, p: nat, k: nat, end: nat)
    requires FieldMatch(s, key, p, k, end)
    ensures end == LineEnd(s, k)
  {
  }

  /** `MatchAt` is the match the regular expression prefers at `p`: every
      other way of matching there stops `\s*` earlier. */
  lemma MatchAtGreedy(s: string, key: string, p: nat, k: nat, end: nat)
    requires p <= |s| && FieldMatch(s, key, p, k, end)
    ensures MatchAt(s, key, p).Some?
    ensures k < MatchAt(s, key, p).value.0 || (k == MatchAt(s, key, p).value.0 && end == MatchAt(s, key, p).value.1)
  {
    var q := p + |key|;
    var e := SpaceEnd(s, q);
    MatchEndIsLineEnd(s, key, p, k, end);
    if e == |s| {
      assert !IsLineTerminator(s[k]);
    }
  }

  /** Where `MatchAt` finds nothing the regular expression cannot match. */
  lemma MatchAtComplete(s: string, key: string, p: nat)
    requires p <= |s| && MatchAt(s, key, p).None?
    ensures forall k: nat, end: nat :: !FieldMatch(s, key, p, k, end)
  {
    forall k: nat, end: nat | FieldMatch(s, key, p, k, end) ensures false {
      MatchAtGreedy(s, key, p, k, end);
    }
  }

  /** The leftmost line start at or after `p` where the expression matches. */
  function FindFrom(s: string, key: string, p: nat): (r: Option<(nat, nat, nat)>)
    requires p <= |s| + 1
    ensures r.Some? ==> p <= r.value.0 <= |s| && MatchAt(s, key, r.value.0) == Some((r.value.1, r.value.2))
    decreases |s| + 1 - p
  {
    if p > |s| then None
    else
      var here := MatchAt(s, key, p);
      if here.Some? then Some((p, here.value.0, here.value.1)) else FindFrom(s, key, p + 1)
  }

  /** No position from `p` on before the one `FindFrom` reports matches. */
  lemma {:induction false} FindFromFound(s: string, key: string, p: nat)
    requires p <= |s| + 1 && FindFrom(s, key, p).Some?
    ensures forall q :: p <= q < FindFrom(s, key, p).value.0 ==> MatchAt(s, key, q).None?
    decreases |s| + 1 - p
  {
    if MatchAt(s, key, p).None? {
      assert FindFrom(s, key, p) == FindFrom(s, key, p + 1);
      FindFromFound(s, key, p + 1);
    } else {
      assert FindFrom(s, key, p).value.0 == p;
    }
  }

  /** When `FindFrom` reports nothing, no position from `p` on matches. */
  lemma {:induction false} FindFromNone(s: string, key: string, p: nat)
    requires p <= |s| + 1 && FindFrom(s, key, p).None?
    ensures forall q :: p <= q <= |s| ==> MatchAt(s, key, q).None?
    decreases |s| + 1 - p
  {
    if p <= |s| {
      FindFromNone(s, key, p + 1);
    }
  }

  /** `s.match(/^key\s*(.+)$/m)?.[1]`. */
  function FieldValue(s: string, key: string): Option<string> {
    match FindFrom(s, key, 0)
    case Some((_, k, end)) => Some(s[k..end])
    case None => None
  }

  /** The captured value is the one of the leftmost match, with the longest
      `\s*` that lets that match succeed. */
  lemma FieldValueIsLeftmostGreedy(s: string, key: string) returns (p: nat, k: nat, end: nat)
    requires FieldValue(s, key).Some?
    ensures FieldMatch(s, key, p, k, end) && FieldValue(s, key) == Some(s[k..end])
    ensures forall p': nat, k': nat, end': nat :: p' < p && FieldMatch(s, key, p', k', end') ==> false
    ensures forall k': nat, end': nat :: FieldMatch(s, key, p, k', end') ==> k' < k || (k' == k && end' == end)
  {
    FindFromFound(s, key, 0);
    var r := FindFrom(s, key, 0).value;
    p, k, end := r.0, r.1, r.2;
    forall p': nat, k': nat, end': nat | p' < p && FieldMatch(s, key, p', k', end') ensures false {
      MatchAtGreedy(s, key, p', k', end');
    }
    forall k': nat, end': nat | FieldMatch(s, key, p, k', end')
      ensures k' < k || (k' == k && end' == end)
    {
      MatchAtGreedy(s, key, p, k', end');
    }
  }

  /** No capture means no line of the text matches. */
  lemma FieldValueNone(s: string, key: string)
    requires FieldValue(s, key).None?
    ensures forall p: nat, k: nat, end: nat :: !FieldMatch(s, key, p, k, end)
  {
    FindFromNone(s, key, 0);
    forall p: nat, k: nat, end: nat | FieldMatch(s, key, p, k, end) ensures false {
      MatchAtGreedy(s, key, p, k, end);
    }
  }

  // ---------------------------------------------------------------------------
  // Skill metadata

  /** `nameMatch ? nameMatch[1].trim() : "workflow-" + id`. */
  function SkillName(skillMd: string, workflowId: string): (name: string)
    ensures FieldValue(skillMd, "name:").Some? ==> name == Trim(FieldValue(skillMd, "name:").value)
    ensures FieldValue(skillMd, "name:").None? ==> name == "workflow-" + workflowId
  {
    match FieldValue(skillMd, "name:")
    case Some(c) => Trim(c)
    case None => "workflow-" + workflowId
  }

  /** A match at `p` with none at an earlier line start is the one
      `FindFrom` reports. */
  lemma {:induction false} FindFromFirst(s: string, key: string, from: nat, p: nat)
    requires from <= p <= |s| && MatchAt(s, key, p).Some?
    requires forall q :: from <= q < p ==> MatchAt(s, key, q).None?
    ensures FindFrom(s, key, from) == Some((p, MatchAt(s, key, p).value.0, MatchAt(s, key, p).value.1))
    decreases p - from
  {
    if from < p {
      FindFromFirst(s, key, from + 1, p);
    }
  }

  /** The first `name:` of the text starts a line at `p` and nothing matches
      at an earlier line start. */
  ghost predicate FirstNameAt(s: string, p: nat) {
    && p + 5 <= |s| && AtLineStart(s, p) && s[p..p + 5] == "name:"
    && forall q: nat, k: nat, end: nat :: q < p ==> !FieldMatch(s, "name:", q, k, end)
  }

  /** When the first `name:` line is blank after the colon and some text
      follows, `\s*` runs across the end of that line and the name is the
      next non-blank line, trimmed. */
  lemma NameOnNextLine(s: string, p: nat, workflowId: string)
    requires FirstNameAt(s, p)
    requires LineEnd(s, p + 5) < |s| && forall i :: p + 5 <= i < LineEnd(s, p + 5) ==> IsWhitespace(s[i])
    requires SpaceEnd(s, p + 5) < |s|
    ensures var e := SpaceEnd(s, p + 5);
      LineEnd(s, p + 5) < e && SkillName(s, workflowId) == Trim(s[e..LineEnd(s, e)])
  {
    var e := SpaceEnd(s, p + 5);
    assert IsWhitespace(s[LineEnd(s, p + 5)]);
    assert MatchAt(s, "name:", p) == Some((e, LineEnd(s, e)));
    FindFromFirst(s, "name:", 0, p);
  }

  /** A `name:` at `p` followed only by line ends is the only candidate,
      and it has nothing to capture: no line start matches. */
  lemma OnlyBreaksAfterName(s: string, p: nat)
    requires p + 5 <= |s| && s[p..p + 5] == "name:"
    requires forall i :: p + 5 <= i < |s| ==> IsLineTerminator(s[i])
    requires forall q: nat, k: nat, end: nat :: q < p ==> !FieldMatch(s, "name:", q, k, end)
    ensures FieldValue(s, "name:").None?
  {
    forall r | 0 <= r <= |s| ensures MatchAt(s, "name:", r).None? {
      if r >= p && r + 5 <= |s| && s[r..r + 5] == "name:" {
        if r < p + 5 {
          assert s[r] == s[p..p + 5][r - p];
        } else {
          assert IsLineTerminator(s[r]);
        }
      }
    }
  }

  /** When only white space follows the first `name:` to the end of the text:
      if some of it is not a line end, `\s*` gives the last such character
      back to `.+` and the trimmed name is empty; if all of it is line ends,
      nothing matches and the fallback `workflow-<id>` is used. */
  lemma BlankNameIsEmpty(s: string, p: nat, workflowId: string)
    requires FirstNameAt(s, p)
    requires forall i :: p + 5 <= i < |s| ==> IsWhitespace(s[i])
    ensures (exists i :: p + 5 <= i < |s| && !IsLineTerminator(s[i])) ==> SkillName(s, workflowId) == ""
    ensures (forall i :: p + 5 <= i < |s| ==> IsLineTerminator(s[i])) ==> SkillName(s, workflowId) == "workflow-" + workflowId
  {
    var q := p + 5;
    assert SpaceEnd(s, q) == |s|;
    match LastOnLine(s, q, |s|)
    case Some(k) =>
      assert LineEnd(s, k) == k + 1;
      assert MatchAt(s, "name:", p) == Some((k, k + 1));
      FindFromFirst(s, "name:", 0, p);
      assert IsWhitespace(s[k..k + 1][0]);
    case None =>
      OnlyBreaksAfterName(s, p);
  }

  /** `w.charAt(0).toUpperCase() + w.slice(1)`. */
  function Capitalize(w: string): (r: string)
    ensures |r| == |w|
    ensures |w| > 0 ==> r[0] == UpperAscii(w[0]) && r[1..] == w[1..]
  {
    if |w| == 0 then "" else [UpperAscii(w[0])] + w[1..]
  }

  function TitleWords(skillName: string): seq<string> {
    var pieces := Split(skillName, '-');
    seq(|pieces|, i requires 0 <= i < |pieces| => Capitalize(pieces[i]))
  }

  /** `skillName.split('-').map(capitalize).join(' ')`. */
  function SkillTitle(skillName: string): string {
    Join(TitleWords(skillName), " ")
  }

  /** The title has one word per dash-separated piece of the name, each the
      piece with its first letter capitalised, and no dash left. */
  lemma SkillTitleLaws(skillName: string)
    ensures |TitleWords(skillName)| == Count(skillName, '-') + 1
    ensures forall i :: 0 <= i < |TitleWords(skillName)| ==>
              TitleWords(skillName)[i] == Capitalize(Split(skillName, '-')[i])
    ensures '-' !in SkillTitle(skillName)
  {
    var pieces := Split(skillName, '-');
    SplitLaws(skillName, '-');
    var words := TitleWords(skillName);
    forall i | 0 <= i < |words| ensures '-' !in words[i] {
      assert '-' !in pieces[i];
      if |pieces[i]| > 0 {
        assert words[i] == [UpperAscii(pieces[i][0])] + pieces[i][1..];
      }
    }
    JoinAvoids(words, " ", '-');
  }

  /** The two quote characters the description may be wrapped in. */
  predicate WrappedIn(d: string, quote: string) {
    StartsWith(d, quote) && EndsWith(d, quote)
  }

  /** `d.slice(1, -1)`: empty when `d` has fewer than two characters. */
  function Inner(d: string): (r: string)
    ensures |d| >= 2 ==> r == d[1..|d| - 1]
    ensures |d| < 2 ==> r == ""
  {
    if |d| >= 2 then d[1..|d| - 1] else ""
  }

  /** One layer of `"` or `'` quoting is removed, `"` being tried first. */
  function StripQuotes(d: string): (r: string)
    ensures WrappedIn(d, "\"") ==> r == Inner(d)
    ensures !WrappedIn(d, "\"") && WrappedIn(d, "'") ==> r == Inner(d)
    ensures !WrappedIn(d, "\"") && !WrappedIn(d, "'") ==> r == d
  {
    if WrappedIn(d, "\"") then Inner(d)
    else if WrappedIn(d, "'") then Inner(d)
    else d
  }

  /** Exactly one layer goes: whatever is inside the quotes, quotes included,
      comes back unchanged. */
  lemma StripOneLayer(x: string, q: char)
    requires q == '"' || q == '\''
    ensures StripQuotes([q] + x + [q]) == x
  {
    var d := [q] + x + [q];
    assert d[..1] == [q] && d[|d| - 1..] == [q];
    assert d[1..|d| - 1] == x;
  }

  /** A lone quote character counts as both starting and ending with itself,
      and leaves nothing. */
  lemma LoneQuoteIsEmpty(q: char)
    requires q == '"' || q == '\''
    ensures StripQuotes([q]) == ""
  {
  }

  /** The description shown: the trimmed `description:` capture without its
      quotes, or empty. */
  function Description(skillMd: string): (d: string)
    ensures FieldValue(skillMd, "description:").None? ==> d == ""
    ensures FieldValue(skillMd, "description:").Some? ==> d == StripQuotes(Trim(FieldValue(skillMd, "description:").value))
  {
    var raw := match FieldValue(skillMd, "description:") case Some(c) => Trim(c) case None => "";
    StripQuotes(raw)
  }

  // ---------------------------------------------------------------------------
  // add

  datatype AddError = MissingWorkflowId | NotAuthenticated | Waitlisted | InvalidToken | InstallFailed(message: string)

  /** How the skill download answered. */
  datatype SkillReply = FetchRejected(message: string) | FetchStatus(status: int) | SkillText(text: string)

  datatype Installed = Installed(targetDir: string, file: string, contents: string, title: string, description: string)

  /** What one `add` does: the token check it sends, the skill download it
      sends, what it writes, what it prints on standard output and how it
      fails, if it does. */
  datatype AddRun = AddRun(validation: Option<HttpRequest>, download: Option<HttpRequest>,
                           installed: Option<Installed>, stdout: seq<string>, failure: Option<AddError>)

  /** The line each guard prints on standard output after its error. */
  function GuardHint(e: AddError): string {
    match e
    case MissingWorkflowId => "Usage: grabbit add <workflow-id>"
    case NotAuthenticated => "Run 'grabbit auth' to authenticate first"
    case Waitlisted => "Check the waitlist page or contact support."
    case InvalidToken => "Run 'grabbit auth' to re-authenticate"
    case InstallFailed(_) => ""
  }

  /** The error message `validateToken` reported is about the waitlist. */
  predicate MentionsWaitlist(v: Validation) {
    Contains(LowerString(OrElse(v.error, "Unknown error")), "waitlist")
  }

  function SkillUrl(apiUrl: string, workflowId: string): string {
    apiUrl + "/api/workflows/" + workflowId + "/skill.md"
  }

  function TargetDir(cwd: string, skillName: string): string {
    cwd + "/.agents/skills/" + skillName
  }

  /** What `add` prints on standard output when the skill is installed; the
      description line only when there is a description. */
  function SuccessLines(workflowId: string, dir: string, title: string, description: string): (lines: seq<string>)
    ensures |lines| == (if description != "" then 7 else 6)
    ensures lines[5] == "Skill: " + title
    ensures description != "" ==> lines[6] == "Description: " + description
  {
    ["Fetching skill for workflow " + workflowId + "...", "Skill installed successfully.", "Location: " + dir,
     "File: SKILL.md", "", "Skill: " + title]
    + (if description != "" then ["Description: " + description] else [])
  }

  function SkillRequest(token: string, apiUrl: string, workflowId: string): HttpRequest {
    HttpRequest(SkillUrl(apiUrl, workflowId), "GET", map[Authorization := "Bearer " + token], None)
  }

  /** The steps after the token was accepted. `initCwd` is `INIT_CWD`;
      `writeError` is the message of a failing `mkdirSync`/`writeFileSync`. */
  function Install(workflowId: string, token: string, apiUrl: string, reply: SkillReply,
                   initCwd: Option<string>, cwd: string, writeError: Option<string>): (r: AddRun)
    ensures r.download == Some(SkillRequest(token, apiUrl, workflowId))
    ensures r.installed.Some? <==> reply.SkillText? && writeError.None?
    ensures r.failure.None? <==> r.installed.Some?
    ensures r.installed.Some? ==>
      var name := SkillName(reply.text, workflowId);
      && r.installed.value == Installed(TargetDir(OrElse(initCwd, cwd), name), TargetDir(OrElse(initCwd, cwd), name) + "/SKILL.md",
                                        reply.text, SkillTitle(name), Description(reply.text))
      && r.stdout == SuccessLines(workflowId, TargetDir(OrElse(initCwd, cwd), name), SkillTitle(name), Description(reply.text))
    ensures reply.FetchStatus? ==> r.failure == Some(InstallFailed("Failed to fetch skill: " + IntToString(reply.status)))
    ensures reply.FetchRejected? ==> r.failure == Some(InstallFailed(reply.message))
  {
    var fetching := ["Fetching skill for workflow " + workflowId + "..."];
    var request := SkillRequest(token, apiUrl, workflowId);
    match reply
    case FetchRejected(m) => AddRun(None, Some(request), None, fetching, Some(InstallFailed(m)))
    case FetchStatus(status) =>
      AddRun(None, Some(request), None, fetching, Some(InstallFailed("Failed to fetch skill: " + IntToString(status))))
    case SkillText(md) =>
      if writeError.Some? then AddRun(None, Some(request), None, fetching, Some(InstallFailed(writeError.value)))
      else
        var name := SkillName(md, workflowId);
        var dir := TargetDir(OrElse(initCwd, cwd), name);
        var title := SkillTitle(name);
        var description := Description(md);
        AddRun(None, Some(request), Some(Installed(dir, dir + "/SKILL.md", md, title, description)),
               SuccessLines(workflowId, dir, title, description), None)
  }

  /** `add`: the guards in order, each exiting before any request that
      follows it. */
  function AddPlan(workflowId: string, config: Option<Config>, apiUrl: string, validation: Reply<Validation>,
                   reply: SkillReply, initCwd: Option<string>, cwd: string, writeError: Option<string>): (r: AddRun)
    ensures r.failure == Some(MissingWorkflowId) <==> workflowId == ""
    ensures r.failure == Some(NotAuthenticated) <==> workflowId != "" && !HasToken(config)
    ensures r.validation.Some? <==> workflowId != "" && HasToken(config)
    ensures r.validation.Some? ==> r.validation.value == ValidateRequest(config.value.token, apiUrl)
    ensures r.failure == Some(Waitlisted) <==>
              r.validation.Some? && !ValidateToken(validation).valid && MentionsWaitlist(ValidateToken(validation))
    ensures r.failure == Some(InvalidToken) <==>
              r.validation.Some? && !ValidateToken(validation).valid && !MentionsWaitlist(ValidateToken(validation))
    ensures r.download.Some? <==> r.validation.Some? && ValidateToken(validation).valid
    ensures r.download.Some? ==> r.download.value.url == SkillUrl(apiUrl, workflowId)
    ensures r.installed.Some? ==> r.download.Some? && r.failure.None?
    ensures r.download.None? ==> |r.stdout| == 1 && r.stdout[0] == GuardHint(r.failure.value)
  {
    if workflowId == "" then AddRun(None, None, None, [GuardHint(MissingWorkflowId)], Some(MissingWorkflowId))
    else if !HasToken(config) then AddRun(None, None, None, [GuardHint(NotAuthenticated)], Some(NotAuthenticated))
    else
      var request := ValidateRequest(config.value.token, apiUrl);
      var v := ValidateToken(validation);
      if !v.valid then
        var e := if MentionsWaitlist(v) then Waitlisted else InvalidToken;
        AddRun(Some(request), None, None, [GuardHint(e)], Some(e))
      else
        Install(workflowId, config.value.token, apiUrl, reply, initCwd, cwd, writeError).(validation := Some(request))
  }
}
