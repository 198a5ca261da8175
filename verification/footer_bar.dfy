/**
 * The copy button of `frontend/src/FooterBar.jsx`: compose the snapshot text,
 * check that it parses and carries the required top-level keys, write it to
 * the clipboard, and report one of three status lines.
 */
module FooterBar {
  import opened Wrappers
  import opened Json
  import opened CopyComposer

  /** The keys the validity check asks for; `project_overview` is not among them. */
  const RequiredKeys: seq<string> := [
    "build_trace", "thread_brief", "current_step", "troubleshooting",
    "file_tree", "important_files", "prompt_pack", "footer"
  ]

  /** `keys.every(k => hasOwnProperty.call(obj, k))`, one key at a time. */
  function EveryKey(obj: Value, keys: seq<string>): (r: bool)
    ensures r <==> forall i :: 0 <= i < |keys| ==> HasKey(obj, keys[i])
  {
    if keys == [] then true else HasKey(obj, keys[0]) && EveryKey(obj, keys[1..])
  }

  /**
   * The `valid` flag: the text parses once the banner is stripped, and the
   * parsed value owns every required key. A parse failure is caught and leaves
   * the flag false; a parsed `null` makes `hasOwnProperty` throw, which is
   * caught the same way.
   */
  function Valid(text: string, parse: string -> Option<Value>): (valid: bool)
    ensures valid <==>
      && ParseCopyText(text, parse).Some?
      && ParseCopyText(text, parse).value.Obj?
      && forall k :: k in RequiredKeys ==> k in Keys(ParseCopyText(text, parse).value.props)
  {
    match ParseCopyText(text, parse)
    case None => false
    case Some(obj) =>
      assert RequiredKeys[0] in RequiredKeys;
      assert forall k :: k in RequiredKeys <==> exists i :: 0 <= i < |RequiredKeys| && RequiredKeys[i] == k;
      EveryKey(obj, RequiredKeys)
  }

  const Building: string := "Building JSON…"
  const CopiedValid: string := "Copied JSON ✅ (valid)"
  const CopiedInvalid: string := "Copied JSON ⚠️ (parse check failed)"
  const CopyFailed: string := "Copy failed — see console"

  /** The status line after the clipboard write returned `ok`. */
  function StatusFor(ok: bool, valid: bool): (status: string)
    ensures status == CopiedValid <==> ok && valid
    ensures status == CopiedInvalid <==> ok && !valid
    ensures status == CopyFailed <==> !ok
  {
    if ok && valid then CopiedValid else if ok then CopiedInvalid else CopyFailed
  }

  /** The component's props after destructuring, defaults applied. */
  datatype Props = Props(
    projectId: Value, repo: Value, branch: Value, commit: Value, runtime: Value,
    endpoints: Value, fileTree: Value, promptPack: Value)

  function PropsOf(props: Value): Props {
    Props(
      Opt(props, "projectId", Null),
      Opt(props, "repo", Obj([])),
      Opt(props, "branch", Str("")),
      Opt(props, "commit", Obj([])),
      Opt(props, "runtime", Obj([])),
      Opt(props, "endpoints", Obj([])),
      Opt(props, "fileTree", Arr([])),
      Opt(props, "promptPack", Str("")))
  }

  /** The hard-coded step the button passes along (which the composer never reads). */
  const ButtonStep: Value := Obj([
    Prop("name", Str("Step-16a — Restore JSON Copy Composer")),
    Prop("dod", Arr([
      Str("Valid JSON with required sections in order"),
      Str("Uses selected project URLs"),
      Str("Starts with debug banner"),
      Str("Tag step-16a pushed")])),
    Prop("commands", Arr([
      Str("git fetch origin && git rebase origin/main"),
      Str("git switch -c feat/step-16a-copy-json")]))
  ])

  /** The options object the button hands to the composer. */
  function CopyOptions(p: Props): Value {
    Obj([
      Prop("projectId", p.projectId),
      Prop("repo", p.repo),
      Prop("branch", p.branch),
      Prop("commit", p.commit),
      Prop("runtime", p.runtime),
      Prop("endpoints", p.endpoints),
      Prop("file_tree", p.fileTree),
      Prop("prompt_pack", p.promptPack),
      Prop("current_step", ButtonStep),
      Prop("source", Str("/stp.json"))
    ])
  }

  /** What the clipboard helper did: returned a flag, or threw (its promise rejected). */
  datatype Clipboard = Wrote(ok: bool) | Threw

  /**
   * The status shown once `handleCopy` settles, for the options it built.
   * "Building JSON…" is set first; an exception from the composer or the
   * clipboard ends the handler there, so that line stays. A parse failure
   * does not stop the copy.
   */
  function Settle(opts: Value, brainDoc: Value, fetched: Option<string>, stamp: string,
                  pretty: Value -> string, compact: Value -> string,
                  parse: string -> Option<Value>, clip: Clipboard): (status: string)
    ensures Compose(opts, brainDoc, fetched, stamp, pretty, compact).Err? ==> status == Building
    ensures clip.Threw? ==> status == Building
    ensures clip.Wrote? && !clip.ok && Compose(opts, brainDoc, fetched, stamp, pretty, compact).Ok?
      ==> status == CopyFailed
    ensures clip.Wrote? && clip.ok ==>
      match Compose(opts, brainDoc, fetched, stamp, pretty, compact)
      case Ok(c) => status == (if Valid(c.text, parse) then CopiedValid else CopiedInvalid)
      case Err(_) => status == Building
  {
    match Compose(opts, brainDoc, fetched, stamp, pretty, compact)
    case Err(_) => Building
    case Ok(c) =>
      var valid := Valid(c.text, parse);
      match clip
      case Threw => Building
      case Wrote(ok) => StatusFor(ok, valid)
  }

  /**
   * `handleCopy` of the component with the given props: one of the four status
   * lines; a `null` repository or a throwing clipboard leaves "Building JSON…",
   * and otherwise a clipboard that returns false reports the failure.
   */
  function HandleCopy(props: Value, brainDoc: Value, fetched: Option<string>, stamp: string,
                      pretty: Value -> string, compact: Value -> string,
                      parse: string -> Option<Value>, clip: Clipboard): (status: string)
    ensures status == Building || status == CopiedValid || status == CopiedInvalid || status == CopyFailed
    ensures Get(props, "repo").Null? || clip.Threw? ==> status == Building
    ensures !Get(props, "repo").Null? && clip == Wrote(false) ==> status == CopyFailed
  {
    ButtonOptionsDestructurable(props);
    Settle(CopyOptions(PropsOf(props)), brainDoc, fetched, stamp, pretty, compact, parse, clip)
  }

  /** The composer throws on the button's options exactly when the `repo` prop is `null`. */
  lemma ButtonOptionsDestructurable(props: Value)
    ensures Destructurable(CopyOptions(PropsOf(props))) <==> !Get(props, "repo").Null?
  {
    CopyOptionsRead(props);
  }

  /** A banner line followed by the printed payload object passes the check. */
  lemma PayloadTextValid(projectId: Value, source: Value, json: Value,
                         pretty: Value -> string, parse: string -> Option<Value>)
    requires forall v: Value :: v.Obj? ==> parse(pretty(v)) == Some(Clean(v))
    requires '\n' !in ShownProject(projectId) && '\n' !in ShownSource(source)
    requires json.Obj? && Keys(json.props) == PayloadKeys
    requires forall i :: 0 <= i < |json.props| ==> !json.props[i].val.Undefined?
    ensures Valid(Banner(projectId, source) + pretty(json), parse)
  {
    var text := Banner(projectId, source) + pretty(json);
    BannerRoundTrip(projectId, source, pretty(json));
    assert ParseCopyText(text, parse) == Some(Obj(CleanProps(json.props)));
    forall k | k in RequiredKeys
      ensures k in Keys(CleanProps(json.props))
    {
      assert k in PayloadKeys;
      LookupDefined(json.props, k);
    }
  }

  /**
   * Any text the composer produces passes the check, given a JSON codec whose
   * parse undoes its pretty-printing (up to dropped `undefined` members) and a
   * banner whose project and source contain no line break.
   */
  lemma ComposedTextValid(opts: Value, brainDoc: Value, fetched: Option<string>, stamp: string,
                          pretty: Value -> string, compact: Value -> string, parse: string -> Option<Value>)
    requires forall v: Value :: v.Obj? ==> parse(pretty(v)) == Some(Clean(v))
    requires Destructurable(opts)
    requires '\n' !in ShownProject(Destructure(opts).projectId) && '\n' !in ShownSource(Destructure(opts).source)
    ensures Compose(opts, brainDoc, fetched, stamp, pretty, compact).Ok?
    ensures Valid(Compose(opts, brainDoc, fetched, stamp, pretty, compact).value.text, parse)
  {
    var o := Destructure(opts);
    var s := BuildSnapshot(o, brainDoc, fetched, stamp);
    ComposedText(opts, brainDoc, fetched, stamp, pretty, compact);
    var text := Compose(opts, brainDoc, fetched, stamp, pretty, compact).value.text;
    SnapshotTextValid(text, o.projectId, o.source, s, pretty, parse);
  }

  lemma ComposedText(opts: Value, brainDoc: Value, fetched: Option<string>, stamp: string,
                     pretty: Value -> string, compact: Value -> string)
    requires Destructurable(opts)
    ensures var o := Destructure(opts);
      && Compose(opts, brainDoc, fetched, stamp, pretty, compact).Ok?
      && Compose(opts, brainDoc, fetched, stamp, pretty, compact).value.text
         == Banner(o.projectId, o.source) + pretty(SnapshotValue(BuildSnapshot(o, brainDoc, fetched, stamp)))
  {
  }

  /** The text for any snapshot whose sections are all defined passes the check. */
  lemma SnapshotTextValid(text: string, projectId: Value, source: Value, s: Snapshot,
                          pretty: Value -> string, parse: string -> Option<Value>)
    requires forall v: Value :: v.Obj? ==> parse(pretty(v)) == Some(Clean(v))
    requires '\n' !in ShownProject(projectId) && '\n' !in ShownSource(source)
    requires Defined(s)
    requires text == Banner(projectId, source) + pretty(SnapshotValue(s))
    ensures Valid(text, parse)
  {
    PayloadTextValid(projectId, source, SnapshotValue(s), pretty, parse);
  }

  /** A successful clipboard write of composed text reports the valid status. */
  lemma SettleValid(opts: Value, brainDoc: Value, fetched: Option<string>, stamp: string,
                    pretty: Value -> string, compact: Value -> string, parse: string -> Option<Value>)
    requires forall v: Value :: v.Obj? ==> parse(pretty(v)) == Some(Clean(v))
    requires Destructurable(opts)
    requires '\n' !in ShownProject(Destructure(opts).projectId) && '\n' !in ShownSource(Destructure(opts).source)
    ensures Settle(opts, brainDoc, fetched, stamp, pretty, compact, parse, Wrote(true)) == CopiedValid
  {
    ComposedTextValid(opts, brainDoc, fetched, stamp, pretty, compact, parse);
  }

  /** The composer sees the button's project, repository and fixed source as given. */
  lemma CopyOptionsRead(props: Value)
    ensures Destructure(CopyOptions(PropsOf(props))).projectId == PropsOf(props).projectId
    ensures Destructure(CopyOptions(PropsOf(props))).repo == PropsOf(props).repo
    ensures Destructure(CopyOptions(PropsOf(props))).source == Str("/stp.json")
  {
    var p := PropsOf(props);
    OptionsProject(p);
    OptionsRepo(p);
    OptionsSource(p);
  }

  lemma OptionsProject(p: Props)
    ensures Get(CopyOptions(p), "projectId") == p.projectId
  {
    LookupFirst(CopyOptions(p).props, 0, "projectId");
  }

  lemma OptionsRepo(p: Props)
    ensures Get(CopyOptions(p), "repo") == p.repo
  {
    var ps := CopyOptions(p).props;
    assert ps[0].key != "repo";
    LookupFirst(ps, 1, "repo");
  }

  lemma OptionsSource(p: Props)
    ensures Get(CopyOptions(p), "source") == Str("/stp.json")
  {
    var ps := CopyOptions(p).props;
    assert forall j :: 0 <= j < 9 ==> ps[j].key != "source" by {
      assert forall j :: 0 <= j < 9 ==> |ps[j].key| != 6 || ps[j].key[0] != 's';
    }
    LookupFirst(ps, 9, "source");
  }

  lemma FixedSourceOneLine()
    ensures '\n' !in ShownSource(Str("/stp.json"))
  {
    assert ShownSource(Str("/stp.json")) == "/stp.json";
  }

  /** The button's own text is valid whenever the project shows without a line break and `repo` is not null. */
  lemma ButtonCopyIsValid(props: Value, brainDoc: Value, fetched: Option<string>, stamp: string,
                          pretty: Value -> string, compact: Value -> string, parse: string -> Option<Value>)
    requires forall v: Value :: v.Obj? ==> parse(pretty(v)) == Some(Clean(v))
    requires !PropsOf(props).repo.Null?
    requires '\n' !in ShownProject(PropsOf(props).projectId)
    ensures HandleCopy(props, brainDoc, fetched, stamp, pretty, compact, parse, Wrote(true)) == CopiedValid
  {
    var opts := CopyOptions(PropsOf(props));
    CopyOptionsRead(props);
    FixedSourceOneLine();
    SettleValid(opts, brainDoc, fetched, stamp, pretty, compact, parse);
  }
}
