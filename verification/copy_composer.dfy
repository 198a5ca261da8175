/**
 * The snapshot composer of `frontend/src/lib/copyComposer.js`: the narrative
 * document (`brain`), the fetched prompt text and the clock reading are
 * parameters, `JSON.stringify` is a parameter, and what remains is a pure
 * function from the caller's options to the banner-prefixed snapshot text.
 */
module CopyComposer {
  import opened Wrappers
  import opened Strings
  import opened Json
  import Ordering

  // ---------------------------------------------------------------------------
  // String defaulting and the banner line
  // ---------------------------------------------------------------------------

  /** `nonEmpty(s, fb)`: keep `s` exactly when it is a string with a non-whitespace character. */
  function NonEmpty(s: Value, fb: Value): (r: Value)
    ensures r == (if s.Str? && !Blank(s.s, IsJsSpace) then s else fb)
  {
    if s.Str? then
      TrimEmptyIffBlank(s.s, IsJsSpace);
      if JsTrim(s.s) != "" then s else fb
    else fb
  }

  /** Defaulting twice with the same fallback changes nothing more. */
  lemma NonEmptyIdempotent(s: Value, fb: Value)
    ensures NonEmpty(NonEmpty(s, fb), fb) == NonEmpty(s, fb)
  {
  }

  /** The project name the banner shows: `projectId || "brain"`. */
  function ShownProject(projectId: Value): string {
    JsString(Or(projectId, Str("brain")))
  }

  /** The source path the banner shows: `source || "/stp.json"`. */
  function ShownSource(source: Value): string {
    JsString(Or(source, Str("/stp.json")))
  }

  const BannerPrefix: string := "// BRaiN Copy v1 • project="
  const BannerMiddle: string := " • source="

  /** The one-line comment put in front of the snapshot text. */
  function Banner(projectId: Value, source: Value): (r: string)
    ensures "//" <= r && r[|r| - 1] == '\n'
    ensures '\n' !in ShownProject(projectId) && '\n' !in ShownSource(source) ==> '\n' !in r[..|r| - 1]
  {
    var line := BannerPrefix + ShownProject(projectId) + BannerMiddle + ShownSource(source);
    BannerConstants();
    assert (line + "\n")[..|line|] == line;
    line + "\n"
  }

  lemma BannerConstants()
    ensures "//" <= BannerPrefix && '\n' !in BannerPrefix && '\n' !in BannerMiddle
  {
  }

  /**
   * The banner-stripping half of `parseCopyText`: when the text starts with
   * `//` and holds a newline, everything up to and including the first newline
   * goes; otherwise the whole text is the body (so a `#` banner stays).
   */
  function StripBanner(text: string): (body: string)
    ensures "//" <= text && '\n' in text ==>
      && |body| < |text|
      && body == text[|text| - |body|..]
      && text[|text| - |body| - 1] == '\n'
      && '\n' !in text[..|text| - |body| - 1]
    ensures !("//" <= text && '\n' in text) ==> body == text
  {
    var i := IndexOf(text, '\n');
    if "//" <= text && i != -1 then text[i + 1..] else text
  }

  /**
   * `parseCopyText`: strip the banner, then hand the rest to `JSON.parse`
   * (`None` when it throws). Only a `//` text with a newline loses its first
   * line; any other text is parsed whole.
   */
  function ParseCopyText(text: string, parse: string -> Option<Value>): (r: Option<Value>)
    ensures !("//" <= text && '\n' in text) ==> r == parse(text)
    ensures "//" <= text && '\n' in text ==> r == parse(text[IndexOf(text, '\n') + 1..])
  {
    parse(StripBanner(text))
  }

  /** Parsing a bannered copy parses exactly the body after the banner. */
  lemma ParseBanneredCopy(projectId: Value, source: Value, body: string, parse: string -> Option<Value>)
    requires '\n' !in ShownProject(projectId) && '\n' !in ShownSource(source)
    ensures ParseCopyText(Banner(projectId, source) + body, parse) == parse(body)
  {
    BannerRoundTrip(projectId, source, body);
  }

  /** The banner the composer writes is exactly what the parser strips. */
  lemma BannerRoundTrip(projectId: Value, source: Value, body: string)
    requires '\n' !in ShownProject(projectId) && '\n' !in ShownSource(source)
    ensures StripBanner(Banner(projectId, source) + body) == body
  {
    var b := Banner(projectId, source);
    var line := b[..|b| - 1];
    assert b == line + "\n";
    assert b + body == line + ['\n'] + body;
    IndexOfAfterPrefix(line, '\n', body);
    assert "//" <= b + body by {
      assert (b + body)[..2] == b[..2];
    }
    assert (b + body)[|line| + 1..] == body;
  }

  // ---------------------------------------------------------------------------
  // Prompt pack
  // ---------------------------------------------------------------------------

  /** How many leading characters of the trimmed prompt text are sniffed. */
  const SniffLength: nat := 50

  /** `pp.trim().slice(0,50).toLowerCase()`. */
  function SniffHead(pp: string): string {
    var t := JsTrim(pp);
    Lower(t[..if |t| < SniffLength then |t| else SniffLength])
  }

  /** The prompt text looks like an HTML page (an error page served in its place). */
  predicate LooksLikeHtml(pp: string) {
    "<!doctype" <= SniffHead(pp) || "<html" <= SniffHead(pp)
  }

  /** A non-empty explicit `prompt_pack` string wins; otherwise the fetched text, or "". */
  function ChosenPrompt(explicit: Value, fetched: Option<string>): string {
    if explicit.Str? && explicit.s != "" then explicit.s else fetched.GetOr("")
  }

  /** The 50-character window never matters: both markers are shorter than it. */
  lemma SniffWindowIrrelevant(pp: string)
    ensures LooksLikeHtml(pp) <==> "<!doctype" <= Lower(JsTrim(pp)) || "<html" <= Lower(JsTrim(pp))
  {
    var t := JsTrim(pp);
    var n := if |t| < SniffLength then |t| else SniffLength;
    LowerPrefix(t, n);
    var h := Lower(t)[..n];
    assert SniffHead(pp) == h;
    assert "<!doctype" <= h <==> "<!doctype" <= Lower(t) by {
      if |t| >= 9 {
        assert h[..9] == Lower(t)[..9];
      }
    }
    assert "<html" <= h <==> "<html" <= Lower(t) by {
      if |t| >= 5 {
        assert h[..5] == Lower(t)[..5];
      }
    }
  }

  /** The `prompt_pack` field: the chosen text, or "" when it looks like an HTML page. */
  function PromptPack(explicit: Value, fetched: Option<string>): (r: string)
    ensures var pp := ChosenPrompt(explicit, fetched);
      && (r == "" || r == pp)
      && (r == "" <==> pp == "" || "<!doctype" <= Lower(JsTrim(pp)) || "<html" <= Lower(JsTrim(pp)))
  {
    var pp := ChosenPrompt(explicit, fetched);
    SniffWindowIrrelevant(pp);
    if LooksLikeHtml(pp) then "" else pp
  }

  // ---------------------------------------------------------------------------
  // Current step
  // ---------------------------------------------------------------------------

  /** The step used when the narrative has none. */
  const DefaultStep: Value :=
    Obj([Prop("name", Str("Unknown")), Prop("definition_of_done", Arr([])), Prop("commands", Arr([]))])

  /** `brain?.current_step || { name:"Unknown", ... }`. */
  function NarrativeStep(brain: Value): Value {
    Or(Get(brain, "current_step"), DefaultStep)
  }

  /** `commands_recent` when it is an array, else no entries. */
  function RecentCommands(brain: Value): seq<Value> {
    var recent := Get(brain, "commands_recent");
    if recent.Arr? then recent.items else []
  }

  /** The step's own commands when they form a non-empty array. */
  predicate HasOwnCommands(step: Value) {
    Get(step, "commands").Arr? && |Get(step, "commands").items| > 0
  }

  /**
   * `current_step.commands`: the step's own non-empty command array, otherwise
   * the first (at most) two recent commands.
   */
  function StepCommands(brain: Value): (r: Value)
    ensures r.Arr?
    ensures HasOwnCommands(NarrativeStep(brain)) ==> r == Get(NarrativeStep(brain), "commands")
    ensures !HasOwnCommands(NarrativeStep(brain)) ==>
      && r.items <= RecentCommands(brain)
      && |r.items| == if |RecentCommands(brain)| < 2 then |RecentCommands(brain)| else 2
  {
    var cs := NarrativeStep(brain);
    var recent := RecentCommands(brain);
    if HasOwnCommands(cs) then Get(cs, "commands")
    else Arr(recent[..if |recent| < 2 then |recent| else 2])
  }

  /** Object spread `{...v}`: the members of an object, the indexed elements of an array or string. */
  function Spread(v: Value): seq<Prop> {
    match v
    case Obj(props) => props
    case Arr(items) => seq(|items|, i requires 0 <= i < |items| => Prop(NatToString(i), items[i]))
    case Str(s) => seq(|s|, i requires 0 <= i < |s| => Prop(NatToString(i), Str([s[i]])))
    case _ => []
  }

  /** `{ ...cs, commands }`: every field of the narrative step, with `commands` replaced. */
  function CurrentStep(brain: Value): (r: Value)
    ensures r.Obj?
    ensures Get(r, "commands") == StepCommands(brain)
    ensures forall k :: k != "commands" ==> Get(r, k) == Lookup(Spread(NarrativeStep(brain)), k)
  {
    Obj(SetProp(Spread(NarrativeStep(brain)), "commands", StepCommands(brain)))
  }

  // ---------------------------------------------------------------------------
  // File candidates: the inlining policy
  // ---------------------------------------------------------------------------

  /** One `important_files` entry: content embedded, or a stub asking for the file by path. */
  datatype ImportantFile =
    | Inlined(path: string, bytes: Value, content: string)
    | ByPath(path: string)

  function ImportantFileValue(f: ImportantFile): Value {
    match f
    case Inlined(path, bytes, content) =>
      Obj([Prop("path", Str(path)), Prop("bytes", bytes), Prop("inline", Bool(true)), Prop("content", Str(content))])
    case ByPath(path) =>
      Obj([Prop("path", Str(path)), Prop("note", Str("ask by path"))])
  }

  /** `(brain?.critical_files?.max_inline_kb ?? 10) * 1024`; `None` is NaN. */
  function InlineLimit(brain: Value): (r: Option<int>)
    ensures Nullish(Get(Get(brain, "critical_files"), "max_inline_kb")) ==> r == Some(10 * 1024)
    ensures Get(Get(brain, "critical_files"), "max_inline_kb").Num? ==>
      r == Some(Get(Get(brain, "critical_files"), "max_inline_kb").n * 1024)
    ensures r.Some? ==> r.value % 1024 == 0
  {
    var kb := Coalesce(Get(Get(brain, "critical_files"), "max_inline_kb"), Num(10));
    match ToNumber(kb)
    case Some(n) => Some(n * 1024)
    case None => None
  }

  /** `size <= limit`, which is false against NaN. */
  predicate WithinLimit(size: int, limit: Option<int>) {
    limit.Some? && size <= limit.value
  }

  /** A candidate the composer treats as a file: an object with a string `path`. */
  predicate IsFileObject(f: Value) {
    Get(f, "path").Str?
  }

  /** `okSize`: the numeric `bytes` if there is one, else the content length, against the limit. */
  predicate SizeOk(f: Value, limit: Option<int>) {
    var bytes := Get(f, "bytes");
    var content := Get(f, "content");
    if bytes.Num? then WithinLimit(bytes.n, limit)
    else if content.Str? then WithinLimit(|content.s|, limit)
    else false
  }

  /** The candidate is inlined: string content, and an explicit flag or a small enough size. */
  predicate Inlines(f: Value, limit: Option<int>) {
    Get(f, "content").Str? && (Get(f, "inline") == Bool(true) || SizeOk(f, limit))
  }

  /** The entry one file object contributes to `important_files`. */
  function Decide(f: Value, limit: Option<int>): (r: ImportantFile)
    requires IsFileObject(f)
    ensures r.path == Get(f, "path").s
    ensures r.Inlined? <==> Inlines(f, limit)
    ensures r.Inlined? ==> r.content == Get(f, "content").s
    ensures r.Inlined? ==> r.bytes == (if Nullish(Get(f, "bytes")) then Num(|r.content|) else Get(f, "bytes"))
  {
    var path := Get(f, "path").s;
    var content := Get(f, "content");
    if content.Str? && (Get(f, "inline") == Bool(true) || SizeOk(f, limit)) then
      Inlined(path, Coalesce(Get(f, "bytes"), Num(|content.s|)), content.s)
    else ByPath(path)
  }

  /** Reference definition: every path a candidate list names (string or file object), in order. */
  function CandidatePaths(cands: seq<Value>): seq<string> {
    if cands == [] then []
    else
      var f := cands[0];
      (if f.Str? then [f.s] else if IsFileObject(f) then [Get(f, "path").s] else []) + CandidatePaths(cands[1..])
  }

  /** Reference definition: the file objects among the candidates, in order. */
  function FileObjects(cands: seq<Value>): (r: seq<Value>)
    ensures forall i :: 0 <= i < |r| ==> IsFileObject(r[i])
  {
    if cands == [] then []
    else (if IsFileObject(cands[0]) then [cands[0]] else []) + FileObjects(cands[1..])
  }

  /** `Decide` applied to each file object in turn. */
  function DecideAll(fs: seq<Value>, limit: Option<int>): (r: seq<ImportantFile>)
    requires forall i :: 0 <= i < |fs| ==> IsFileObject(fs[i])
    ensures |r| == |fs|
  {
    if fs == [] then [] else [Decide(fs[0], limit)] + DecideAll(fs[1..], limit)
  }

  lemma {:induction false} DecideAllAt(fs: seq<Value>, limit: Option<int>, i: nat)
    requires forall j :: 0 <= j < |fs| ==> IsFileObject(fs[j])
    requires i < |fs|
    ensures DecideAll(fs, limit)[i] == Decide(fs[i], limit)
    decreases i
  {
    if i > 0 {
      DecideAllAt(fs[1..], limit, i - 1);
    }
  }

  lemma DecideAllStep(cands: seq<Value>, limit: Option<int>)
    requires cands != []
    ensures DecideAll(FileObjects(cands), limit) ==
      (if IsFileObject(cands[0]) then [Decide(cands[0], limit)] else []) + DecideAll(FileObjects(cands[1..]), limit)
  {
    var f := cands[0];
    var fs := FileObjects(cands[1..]);
    if IsFileObject(f) {
      assert FileObjects(cands) == [f] + fs;
      assert ([f] + fs)[1..] == fs;
    } else {
      assert FileObjects(cands) == fs;
    }
  }

  /**
   * The loop over `file_tree`: one pass that feeds both the path list and the
   * `important_files` list.
   */
  function Collect(cands: seq<Value>, limit: Option<int>): (r: (seq<string>, seq<ImportantFile>))
    ensures r.0 == CandidatePaths(cands)
    ensures r.1 == DecideAll(FileObjects(cands), limit)
  {
    if cands == [] then ([], [])
    else
      var f := cands[0];
      var rest := Collect(cands[1..], limit);
      DecideAllStep(cands, limit);
      if f.Str? then ([f.s] + rest.0, rest.1)
      else if IsFileObject(f) then ([Get(f, "path").s] + rest.0, [Decide(f, limit)] + rest.1)
      else rest
  }

  // ---------------------------------------------------------------------------
  // The payload
  // ---------------------------------------------------------------------------

  /** The nine top-level keys, in the order the payload lists them. */
  const PayloadKeys: seq<string> := [
    "build_trace", "project_overview", "thread_brief", "current_step", "troubleshooting",
    "file_tree", "important_files", "prompt_pack", "footer"
  ]

  datatype Snapshot = Snapshot(
    buildTrace: Value,
    projectOverview: Value,
    threadBrief: string,
    currentStep: Value,
    troubleshooting: Value,
    fileTree: seq<string>,
    importantFiles: seq<ImportantFile>,
    promptPack: string,
    footer: Value)

  function StringsValue(ss: seq<string>): (v: Value)
    ensures v.Arr? && |v.items| == |ss|
  {
    Arr(Strs(ss))
  }

  /** No top-level field of the snapshot is `undefined`. */
  predicate Defined(s: Snapshot) {
    && !s.buildTrace.Undefined? && !s.projectOverview.Undefined? && !s.currentStep.Undefined?
    && !s.troubleshooting.Undefined? && !s.footer.Undefined?
  }

  /** The payload object, keys in the fixed order. */
  function SnapshotValue(s: Snapshot): (v: Value)
    ensures v.Obj? && Keys(v.props) == PayloadKeys
    ensures Defined(s) ==> forall i :: 0 <= i < |v.props| ==> !v.props[i].val.Undefined?
  {
    Obj([
      Prop("build_trace", s.buildTrace),
      Prop("project_overview", s.projectOverview),
      Prop("thread_brief", Str(s.threadBrief)),
      Prop("current_step", s.currentStep),
      Prop("troubleshooting", s.troubleshooting),
      Prop("file_tree", StringsValue(s.fileTree)),
      Prop("important_files", Arr(seq(|s.importantFiles|, i requires 0 <= i < |s.importantFiles| => ImportantFileValue(s.importantFiles[i])))),
      Prop("prompt_pack", Str(s.promptPack)),
      Prop("footer", s.footer)
    ])
  }

  /** Destructuring default: an option that is `undefined` takes its default. */
  function Opt(opts: Value, k: string, default: Value): Value {
    var v := Get(opts, k);
    if v.Undefined? then default else v
  }

  /** The destructured options of `composeCopyJSON`, defaults applied. */
  datatype Options = Options(
    projectId: Value, repo: Value, branch: Value, commit: Value, runtime: Value,
    endpoints: Value, fileTree: Value, promptPack: Value, source: Value)

  /** `got` is what destructuring makes of the option `given`: the default when it is `undefined`, else the option itself. */
  predicate Defaulted(given: Value, got: Value, default: Value) {
    if given.Undefined? then got == default else got == given
  }

  /** The destructuring at the top of `composeCopyJSON` (the only place the options are read). */
  function Destructure(opts: Value): (o: Options)
    ensures Defaulted(Get(opts, "projectId"), o.projectId, Str("brain"))
    ensures Defaulted(Get(opts, "repo"), o.repo, Obj([]))
    ensures Defaulted(Get(opts, "branch"), o.branch, Str("main"))
    ensures Defaulted(Get(opts, "commit"), o.commit, Obj([Prop("short", Str("")), Prop("full", Str(""))]))
    ensures Defaulted(Get(opts, "runtime"), o.runtime, Obj([]))
    ensures Defaulted(Get(opts, "endpoints"), o.endpoints, Obj([]))
    ensures Defaulted(Get(opts, "file_tree"), o.fileTree, Arr([]))
    ensures Defaulted(Get(opts, "prompt_pack"), o.promptPack, Str(""))
    ensures Defaulted(Get(opts, "source"), o.source, Str("/stp.json"))
  {
    Options(
      Opt(opts, "projectId", Str("brain")),
      Opt(opts, "repo", Obj([])),
      Opt(opts, "branch", Str("main")),
      Opt(opts, "commit", Obj([Prop("short", Str("")), Prop("full", Str(""))])),
      Opt(opts, "runtime", Obj([])),
      Opt(opts, "endpoints", Obj([])),
      Opt(opts, "file_tree", Arr([])),
      Opt(opts, "prompt_pack", Str("")),
      Opt(opts, "source", Str("/stp.json")))
  }

  /** The options can be destructured and `repo.name` read without throwing. */
  predicate Destructurable(opts: Value) {
    !opts.Null? && !Destructure(opts).repo.Null?
  }

  /** `safeFetch("/brain.yml") || {}`. */
  function Narrative(brainDoc: Value): Value {
    Or(brainDoc, Obj([]))
  }

  /** The candidate list: `file_tree` when it is an array. */
  function Candidates(o: Options): seq<Value> {
    if o.fileTree.Arr? then o.fileTree.items else []
  }

  const FooterSummary: string := "Summarize project state, confirm objective, list missing inputs."
  const StopRule: string := "Stop after 1–2 commands and wait for my output."
  const Rules: seq<string> := [
    "Treat .brain.yml + Prompt Pack as ground truth.",
    "Use full-file replacements.",
    "Use a Redline Notice if deviating.",
    "Snapshot Ritual after each step (git add/commit/tag + screenshot).",
    StopRule
  ]

  /** `repo.name` when it is a non-blank string, else the narrative's project name, else the repository's own name. */
  function RepoName(o: Options, brain: Value): (r: Value)
    ensures Get(o.repo, "name").Str? && !Blank(Get(o.repo, "name").s, IsJsSpace) ==> r == Get(o.repo, "name")
    ensures !(Get(o.repo, "name").Str? && !Blank(Get(o.repo, "name").s, IsJsSpace)) ==>
      r == Or(Get(Get(brain, "project"), "name"), Str("project-brain-beacon"))
  {
    NonEmpty(Get(o.repo, "name"), Or(Get(Get(brain, "project"), "name"), Str("project-brain-beacon")))
  }

  /** The branch shown: the option when it is a non-blank string, else "main". */
  function Branch(o: Options): (b: string)
    ensures o.branch.Str? && !Blank(o.branch.s, IsJsSpace) ==> b == o.branch.s
    ensures !(o.branch.Str? && !Blank(o.branch.s, IsJsSpace)) ==> b == "main"
  {
    var b := NonEmpty(o.branch, Str("main"));
    if b.Str? then b.s else "main"
  }

  /** The keys of `build_trace`, in order. */
  const TraceKeys: seq<string> := ["repo", "branch", "commit", "generated_at", "runtime", "endpoints"]

  /**
   * `build_trace`: the repository, the branch, `commit` and `runtime` as given,
   * the stamp, and the `endpoints` option unless it has no keys, in which case
   * the narrative's endpoints (or `{}`).
   */
  function BuildTrace(o: Options, brain: Value, stamp: string): (t: Value)
    ensures t.Obj? && Keys(t.props) == TraceKeys
    ensures Get(Get(t, "repo"), "name") == RepoName(o, brain)
    ensures Get(t, "branch") == Str(Branch(o))
    ensures Get(t, "commit") == o.commit && Get(t, "runtime") == o.runtime
    ensures Get(t, "generated_at") == Str(stamp)
    ensures KeyCount(o.endpoints) > 0 ==> Get(t, "endpoints") == o.endpoints
    ensures KeyCount(o.endpoints) == 0 ==> Get(t, "endpoints") == Or(Get(brain, "endpoints"), Obj([]))
  {
    var repo := Obj([
      Prop("name", RepoName(o, brain)),
      Prop("remote", NonEmpty(Get(o.repo, "remote"), Str("")))]);
    var endpoints :=
      if KeyCount(Or(o.endpoints, Obj([]))) > 0 then o.endpoints else Or(Get(brain, "endpoints"), Obj([]));
    var props := [
      Prop("repo", repo),
      Prop("branch", Str(Branch(o))),
      Prop("commit", o.commit),
      Prop("generated_at", Str(stamp)),
      Prop("runtime", o.runtime),
      Prop("endpoints", endpoints)
    ];
    TraceLookups(props);
    assert Lookup(props, TraceKeys[0]) == repo && Lookup(props, TraceKeys[1]) == Str(Branch(o));
    assert Lookup(props, TraceKeys[2]) == o.commit && Lookup(props, TraceKeys[3]) == Str(stamp);
    assert Lookup(props, TraceKeys[4]) == o.runtime && Lookup(props, TraceKeys[5]) == endpoints;
    Obj(props)
  }

  lemma TraceKeysDistinct()
    ensures Ordering.Distinct(TraceKeys)
  {
  }

  /** Reading the members of `build_trace` back. */
  lemma TraceLookups(props: seq<Prop>)
    requires |props| == 6
    requires forall i :: 0 <= i < 6 ==> props[i].key == TraceKeys[i]
    ensures Keys(props) == TraceKeys
    ensures forall i :: 0 <= i < 6 ==> Lookup(props, TraceKeys[i]) == props[i].val
  {
    TraceKeysDistinct();
    forall i | 0 <= i < 6 ensures Lookup(props, TraceKeys[i]) == props[i].val {
      LookupFirst(props, i, TraceKeys[i]);
    }
  }

  const OverviewKeys: seq<string> := ["overview", "capabilities", "architecture", "data_sources", "goals"]

  /**
   * `project_overview`: five sections in a fixed order, none `undefined` or
   * `null`; the first four come from `project`, `goals` from the top level.
   */
  function ProjectOverview(brain: Value): (r: Value)
    ensures r.Obj? && Keys(r.props) == OverviewKeys
    ensures forall i :: 0 <= i < |r.props| ==> !Nullish(r.props[i].val)
    ensures Get(r, "overview") == if Truthy(Get(Get(brain, "project"), "overview")) then Get(Get(brain, "project"), "overview") else Str("")
    ensures Get(r, "goals") == if Truthy(Get(brain, "goals")) then Get(brain, "goals") else Arr([])
  {
    var project := Get(brain, "project");
    var props := [
      Prop("overview", Or(Get(project, "overview"), Str(""))),
      Prop("capabilities", Or(Get(project, "capabilities"), Arr([]))),
      Prop("architecture", Or(Get(project, "architecture"), Arr([]))),
      Prop("data_sources", Or(Get(project, "data_sources"), Arr([]))),
      Prop("goals", Or(Get(brain, "goals"), Arr([])))
    ];
    DefinedFallback(Get(project, "overview"), Str(""));
    DefinedFallback(Get(project, "capabilities"), Arr([]));
    DefinedFallback(Get(project, "architecture"), Arr([]));
    DefinedFallback(Get(project, "data_sources"), Arr([]));
    DefinedFallback(Get(brain, "goals"), Arr([]));
    OverviewKeysDistinct();
    KeyedLookup(props, OverviewKeys, 0);
    KeyedLookup(props, OverviewKeys, 4);
    Obj(props)
  }

  /** `a || b` with a defined fallback is defined. */
  lemma DefinedFallback(a: Value, b: Value)
    requires !Nullish(b)
    ensures !Nullish(Or(a, b))
  {
  }

  lemma OverviewKeysDistinct()
    ensures Ordering.Distinct(OverviewKeys)
  {
  }

  /** In an object whose keys are `ks`, all different, key `ks[i]` reads member `i`. */
  lemma KeyedLookup(props: seq<Prop>, ks: seq<string>, i: nat)
    requires |props| == |ks| && i < |ks| && Ordering.Distinct(ks)
    requires forall j :: 0 <= j < |ks| ==> props[j].key == ks[j]
    ensures Keys(props) == ks
    ensures Lookup(props, ks[i]) == props[i].val
  {
    LookupFirst(props, i, ks[i]);
  }

  /** The sentence `thread_brief` falls back to: repository, branch and the current step's name. */
  function FallbackBrief(o: Options, brain: Value): string {
    var focus := Or(Get(Get(brain, "current_step"), "name"), Str("n/a"));
    "Project " + JsString(RepoName(o, brain)) + " on " + Branch(o) + ". Current focus: " + JsString(focus) + "."
  }

  /** `thread_brief`: the narrative's `project.summary` when it is a non-blank string, else the fallback sentence. */
  function ThreadBrief(o: Options, brain: Value): (r: string)
    ensures var summary := Get(Get(brain, "project"), "summary");
      r == if summary.Str? && !Blank(summary.s, IsJsSpace) then summary.s else FallbackBrief(o, brain)
  {
    var brief := NonEmpty(Get(Get(brain, "project"), "summary"), Str(FallbackBrief(o, brain)));
    if brief.Str? then brief.s else FallbackBrief(o, brain)
  }

  /** Without a narrative the brief names the repository and branch and has no focus. */
  lemma BriefWithoutNarrative(o: Options)
    requires Get(o.repo, "name").Str? && !Blank(Get(o.repo, "name").s, IsJsSpace)
    ensures ThreadBrief(o, Narrative(Null))
         == "Project " + Get(o.repo, "name").s + " on " + Branch(o) + ". Current focus: n/a."
  {
    assert Narrative(Null) == Obj([]);
    var head := "Project " + Get(o.repo, "name").s + " on " + Branch(o);
    EmptyNarrativeBrief(o);
    FocusSentence(head);
  }

  /** An empty narrative has no summary and no step name. */
  lemma EmptyNarrativeBrief(o: Options)
    requires Get(o.repo, "name").Str? && !Blank(Get(o.repo, "name").s, IsJsSpace)
    ensures ThreadBrief(o, Obj([]))
         == "Project " + Get(o.repo, "name").s + " on " + Branch(o) + ". Current focus: " + "n/a" + "."
  {
    var brain := Obj([]);
    assert Get(Get(brain, "project"), "summary") == Undefined;
    assert Or(Get(Get(brain, "current_step"), "name"), Str("n/a")) == Str("n/a");
    assert RepoName(o, brain) == Get(o.repo, "name");
  }

  lemma FocusSentence(head: string)
    ensures head + ". Current focus: " + "n/a" + "." == head + ". Current focus: n/a."
  {
    assert ". Current focus: " + "n/a" + "." == ". Current focus: n/a.";
    assert head + ". Current focus: " + "n/a" + "." == head + (". Current focus: " + "n/a" + ".");
  }

  const FooterKeys: seq<string> := ["startup_asks", "rules", "stop_rule"]
  const AskKeys: seq<string> := ["summary", "next_actions", "commands"]

  lemma FooterKeysDistinct()
    ensures Ordering.Distinct(FooterKeys) && Ordering.Distinct(AskKeys)
  {
  }

  lemma LastRuleIsStopRule()
    ensures |StringsValue(Rules).items| == 5 && StringsValue(Rules).items[4] == Str(StopRule)
  {
  }

  /**
   * `footer`: the start-up asks, the fixed rules and the stop rule, which is
   * also the last of the rules.
   */
  function Footer(brain: Value): (r: Value)
    ensures r.Obj? && Keys(r.props) == FooterKeys
    ensures Get(r, "stop_rule") == Str(StopRule)
    ensures Get(r, "rules").Arr? && |Get(r, "rules").items| == 5 && Get(r, "rules").items[4] == Get(r, "stop_rule")
    ensures Get(Get(r, "startup_asks"), "commands") == if Truthy(Get(brain, "commands_recent")) then Get(brain, "commands_recent") else Arr([])
  {
    var asks := [
      Prop("summary", Str(FooterSummary)),
      Prop("next_actions", Or(Get(brain, "next_steps"), Arr([]))),
      Prop("commands", Or(Get(brain, "commands_recent"), Arr([])))];
    var rules := StringsValue(Rules);
    var top := [Prop("startup_asks", Obj(asks)), Prop("rules", rules), Prop("stop_rule", Str(StopRule))];
    FooterKeysDistinct();
    KeyedLookup(asks, AskKeys, 2);
    KeyedLookup(top, FooterKeys, 1);
    KeyedLookup(top, FooterKeys, 2);
    LastRuleIsStopRule();
    Obj(top)
  }

  /** `troubleshooting` when it is an array, else no entries. */
  function Troubleshooting(brain: Value): (r: Value)
    ensures r.Arr?
    ensures Get(brain, "troubleshooting").Arr? ==> r == Get(brain, "troubleshooting")
    ensures !Get(brain, "troubleshooting").Arr? ==> r == Arr([])
  {
    var trouble := Get(brain, "troubleshooting");
    if trouble.Arr? then trouble else Arr([])
  }

  /**
   * The payload built from the options, the narrative document as fetched
   * (`Null` when the fetch failed), the fetched prompt text and the clock.
   */
  function BuildSnapshot(o: Options, brainDoc: Value, fetchedPrompt: Option<string>, stamp: string): (s: Snapshot)
    ensures Defined(s)
    ensures s.buildTrace == BuildTrace(o, Narrative(brainDoc), stamp)
    ensures Get(s.buildTrace, "generated_at") == Str(stamp)
    ensures s.threadBrief == ThreadBrief(o, Narrative(brainDoc))
    ensures Ordering.Sorted(s.fileTree)
    ensures multiset(s.fileTree) == multiset(CandidatePaths(Candidates(o)))
    ensures s.importantFiles == DecideAll(FileObjects(Candidates(o)), InlineLimit(Narrative(brainDoc)))
    ensures s.currentStep == CurrentStep(Narrative(brainDoc))
    ensures s.projectOverview == ProjectOverview(Narrative(brainDoc))
    ensures s.troubleshooting == Troubleshooting(Narrative(brainDoc))
    ensures s.footer == Footer(Narrative(brainDoc))
    ensures s.promptPack == PromptPack(o.promptPack, fetchedPrompt)
  {
    var brain := Narrative(brainDoc);
    var collected := Collect(Candidates(o), InlineLimit(brain));
    Snapshot(
      BuildTrace(o, brain, stamp),
      ProjectOverview(brain),
      ThreadBrief(o, brain),
      CurrentStep(brain),
      Troubleshooting(brain),
      Ordering.Sort(collected.0),
      collected.1,
      PromptPack(o.promptPack, fetchedPrompt),
      Footer(brain))
  }

  /** `{ text, json, jsonOnly }`. */
  datatype Composed = Composed(text: string, json: Value, jsonOnly: string)

  /**
   * `composeCopyJSON`. `pretty` stands for `JSON.stringify(_, null, 2)` and
   * `compact` for `JSON.stringify(_)`; `Err` is the exception thrown when the
   * options are `null` or `repo` is `null`.
   */
  function Compose(opts: Value, brainDoc: Value, fetchedPrompt: Option<string>, stamp: string,
                   pretty: Value -> string, compact: Value -> string): (r: Result<Composed>)
    ensures r.Ok? <==> Destructurable(opts)
    ensures r.Ok? ==>
      && r.value.json == SnapshotValue(BuildSnapshot(Destructure(opts), brainDoc, fetchedPrompt, stamp))
      && r.value.text == Banner(Destructure(opts).projectId, Destructure(opts).source) + pretty(r.value.json)
  {
    // `undefined` options take the default `{}`, which reads exactly like `undefined` here
    var o := Destructure(opts);
    if opts.Null? then Err("TypeError: cannot destructure the options")
    else if o.repo.Null? then Err("TypeError: cannot read 'name' of null")
    else
      var payload := SnapshotValue(BuildSnapshot(o, brainDoc, fetchedPrompt, stamp));
      var text := Banner(o.projectId, o.source) + pretty(payload);
      Ok(Composed(text, payload, compact(payload)))
  }

  // ---------------------------------------------------------------------------
  // Properties of the composed payload
  // ---------------------------------------------------------------------------

  /**
   * An entry is inlined without the explicit flag only when its measured size
   * (numeric `bytes`, else content length) is within the limit.
   */
  lemma InlineRespectsLimit(f: Value, limit: Option<int>)
    requires IsFileObject(f)
    requires Decide(f, limit).Inlined? && Get(f, "inline") != Bool(true)
    ensures limit.Some?
    ensures Get(f, "bytes").Num? ==> Get(f, "bytes").n <= limit.value
    ensures !Get(f, "bytes").Num? ==> |Decide(f, limit).content| <= limit.value
  {
  }

  /** Sorting makes the file tree independent of the order the candidates came in. */
  lemma FileTreeIgnoresCandidateOrder(o: Options, o': Options, brainDoc: Value, fetched: Option<string>, stamp: string)
    requires multiset(CandidatePaths(Candidates(o))) == multiset(CandidatePaths(Candidates(o')))
    ensures BuildSnapshot(o, brainDoc, fetched, stamp).fileTree == BuildSnapshot(o', brainDoc, fetched, stamp).fileTree
  {
    var a := BuildSnapshot(o, brainDoc, fetched, stamp).fileTree;
    var b := BuildSnapshot(o', brainDoc, fetched, stamp).fileTree;
    Ordering.SortedUnique(a, b);
  }

  /** Distinct candidate paths give a file tree without duplicates. */
  lemma FileTreeKeepsDistinct(o: Options, brainDoc: Value, fetched: Option<string>, stamp: string)
    requires Ordering.Distinct(CandidatePaths(Candidates(o)))
    ensures Ordering.Distinct(BuildSnapshot(o, brainDoc, fetched, stamp).fileTree)
  {
    Ordering.PermutationKeepsDistinct(CandidatePaths(Candidates(o)), BuildSnapshot(o, brainDoc, fetched, stamp).fileTree);
  }

  /** With no narrative the current step is the default "Unknown" step, commands and all. */
  lemma AbsentNarrativeStep()
    ensures CurrentStep(Narrative(Null)) == DefaultStep
  {
    var brain := Narrative(Null);
    assert NarrativeStep(brain) == DefaultStep;
    assert StepCommands(brain) == Arr([]);
    var ps := DefaultStep.props;
    assert ps == [ps[0]] + ps[1..];
    assert ps[1..] == [ps[1]] + ps[2..];
    assert SetProp(ps[2..], "commands", Arr([])) == ps[2..];
    assert SetProp(ps[1..], "commands", Arr([])) == ps[1..];
  }

  /** With no narrative the overview, troubleshooting list and footer asks are empty. */
  lemma AbsentNarrativeDefaults()
    ensures ProjectOverview(Narrative(Null)) == Obj([
           Prop("overview", Str("")), Prop("capabilities", Arr([])), Prop("architecture", Arr([])),
           Prop("data_sources", Arr([])), Prop("goals", Arr([]))])
    ensures Troubleshooting(Narrative(Null)) == Arr([])
    ensures Footer(Narrative(Null)) == Obj([
      Prop("startup_asks", Obj([
        Prop("summary", Str(FooterSummary)), Prop("next_actions", Arr([])), Prop("commands", Arr([]))])),
      Prop("rules", StringsValue(Rules)),
      Prop("stop_rule", Str(StopRule))])
  {
    assert Narrative(Null) == Obj([]);
  }

  /** An empty own command list falls back to the first two recent commands. */
  lemma CommandsFallbackExample()
    ensures StepCommands(Obj([
      Prop("current_step", Obj([Prop("name", Str("X")), Prop("commands", Arr([]))])),
      Prop("commands_recent", Arr([Str("a"), Str("b"), Str("c")]))])) == Arr([Str("a"), Str("b")])
  {
    var brain := Obj([
      Prop("current_step", Obj([Prop("name", Str("X")), Prop("commands", Arr([]))])),
      Prop("commands_recent", Arr([Str("a"), Str("b"), Str("c")]))]);
    assert Get(brain, "commands_recent") == Arr([Str("a"), Str("b"), Str("c")]);
    assert !HasOwnCommands(NarrativeStep(brain));
    assert [Str("a"), Str("b"), Str("c")][..2] == [Str("a"), Str("b")];
  }

  /** A file record as the snapshot generator writes it, with or without content. */
  function FileRecord(path: string, bytes: int, content: Option<string>): Value {
    Obj([Prop("path", Str(path)), Prop("bytes", Num(bytes)), Prop("inline", Bool(false))]
        + (if content.Some? then [Prop("content", Str(content.value))] else []))
  }

  /** How `Decide` reads a file record: its path, its size, no flag, and its content if any. */
  lemma FileRecordFields(path: string, bytes: int, content: Option<string>)
    ensures Get(FileRecord(path, bytes, content), "path") == Str(path)
    ensures Get(FileRecord(path, bytes, content), "bytes") == Num(bytes)
    ensures Get(FileRecord(path, bytes, content), "inline") == Bool(false)
    ensures Get(FileRecord(path, bytes, content), "content") == if content.Some? then Str(content.value) else Undefined
  {
    FileRecordHead(path, bytes, content);
    FileRecordContent(path, bytes, content);
  }

  lemma FileRecordHead(path: string, bytes: int, content: Option<string>)
    ensures Get(FileRecord(path, bytes, content), "path") == Str(path)
    ensures Get(FileRecord(path, bytes, content), "bytes") == Num(bytes)
    ensures Get(FileRecord(path, bytes, content), "inline") == Bool(false)
  {
    var ps := FileRecord(path, bytes, content).props;
    LookupFirst(ps, 0, "path");
    LookupFirst(ps, 1, "bytes");
    LookupFirst(ps, 2, "inline");
  }

  lemma FileRecordContent(path: string, bytes: int, content: Option<string>)
    ensures Get(FileRecord(path, bytes, content), "content") == if content.Some? then Str(content.value) else Undefined
  {
    var ps := FileRecord(path, bytes, content).props;
    if content.Some? {
      LookupFirst(ps, 3, "content");
    } else {
      assert Keys(ps) == ["path", "bytes", "inline"];
    }
  }

  /**
   * As the code decides it: without a string `content` no
   * file is inlined, whatever its size; with content, one within the limit is
   * and one above it is not.
   */
  lemma InliningExampleNoContent()
    ensures Decide(FileRecord("a.txt", 5000, None), Some(10240)) == ByPath("a.txt")
  {
    FileRecordFields("a.txt", 5000, None);
  }

  lemma InliningExampleSmall(ca: string)
    ensures Decide(FileRecord("a.txt", 5000, Some(ca)), Some(10240)) == Inlined("a.txt", Num(5000), ca)
  {
    FileRecordFields("a.txt", 5000, Some(ca));
  }

  lemma InliningExampleLarge(cb: string)
    ensures Decide(FileRecord("b.txt", 50000, Some(cb)), Some(10240)) == ByPath("b.txt")
  {
    FileRecordFields("b.txt", 50000, Some(cb));
  }

  /** Trimming keeps a head that starts and ends with visible characters. */
  lemma JsTrimKeepsHead(s: string, n: nat)
    requires 0 < n <= |s| && !IsJsSpace(s[0]) && !IsJsSpace(s[n - 1])
    ensures n <= |JsTrim(s)| && JsTrim(s)[..n] == s[..n]
  {
    assert TrimStart(s, IsJsSpace) == s;
  }

  lemma LowerDoctype()
    ensures Lower("<!DOCTYPE") == "<!doctype"
  {
  }

  /** An HTML error page in place of the prompt text is dropped. */
  lemma DoctypeExample(rest: string)
    ensures PromptPack(Str("<!DOCTYPE html>" + rest), None) == ""
  {
    var pp := "<!DOCTYPE html>" + rest;
    assert pp[0] == '<' && pp[8] == 'E';
    JsTrimKeepsHead(pp, 9);
    var t := JsTrim(pp);
    LowerPrefix(t, 9);
    assert t[..9] == pp[..9] == "<!DOCTYPE";
    LowerDoctype();
    assert Lower(t)[..9] == "<!doctype";
  }

  /** The `current_step` option the footer bar passes is never read: the result is the same without it. */
  lemma IgnoresCurrentStepOption(props: seq<Prop>, step: Value, brainDoc: Value, fetched: Option<string>,
                                 stamp: string, pretty: Value -> string, compact: Value -> string)
    ensures Compose(Obj(SetProp(props, "current_step", step)), brainDoc, fetched, stamp, pretty, compact)
         == Compose(Obj(props), brainDoc, fetched, stamp, pretty, compact)
  {
    var a := Obj(SetProp(props, "current_step", step));
    var b := Obj(props);
    SetPropOtherKeys(props, step);
    SameOptions(a, b);
  }

  lemma SetPropOtherKeys(props: seq<Prop>, step: Value)
    ensures forall k :: k in DestructuredKeys ==> Get(Obj(SetProp(props, "current_step", step)), k) == Get(Obj(props), k)
  {
    forall k | k in DestructuredKeys
      ensures Get(Obj(SetProp(props, "current_step", step)), k) == Get(Obj(props), k)
    {
      assert |k| < 12 by { ShortOptionNames(k); }
    }
  }

  /** Every option name is shorter than `current_step`. */
  lemma ShortOptionNames(k: string)
    requires k in DestructuredKeys
    ensures |k| < |"current_step"|
  {
  }

  /** Values that agree on every option name the destructuring reads destructure alike. */
  lemma SameOptions(a: Value, b: Value)
    requires a.Obj? && b.Obj?
    requires forall k :: k in DestructuredKeys ==> Get(a, k) == Get(b, k)
    ensures Destructure(a) == Destructure(b)
  {
  }

  /** The option names the destructuring reads. */
  const DestructuredKeys: set<string> :=
    {"projectId", "repo", "branch", "commit", "runtime", "endpoints", "file_tree", "prompt_pack", "source"}
}
