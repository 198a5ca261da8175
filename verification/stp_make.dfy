/**
 * The snapshot generator `tools/stp_make.py`: which files of the repository
 * are listed and which are inlined, the indented tree of their paths, the
 * small YAML emitter, and the document those feed. The directory walk, file
 * sizes and contents, `git` output and the clock are parameters.
 */
module StpMake {
  import opened Wrappers
  import opened Strings
  import opened Json
  import Ordering

  // ---------------------------------------------------------------------------
  // File selection
  // ---------------------------------------------------------------------------

  /**
   * One regular file found by the walk: the components of its path relative to
   * the repository root, its size in bytes, and the text a UTF-8 read gives
   * (`None` when the read raises).
   */
  datatype FileEntry = FileEntry(parts: seq<string>, size: nat, text: Option<string>)

  const ExcludeDirs: set<string> := {".git", "dist", "__pycache__", ".idea", ".vscode", "node_modules", ".venv", "venv"}
  const InlineExts: set<string> := {".md", ".txt", ".py", ".json", ".yml", ".yaml", ".toml", ".sh", ".cfg", ".ini", ".env", ".gitignore"}
  const MaxInline: nat := 64 * 1024

  /** A file is skipped when any component of its relative path, its own name included, is excluded. */
  predicate Excluded(e: FileEntry) {
    exists i :: 0 <= i < |e.parts| && e.parts[i] in ExcludeDirs
  }

  /** The relative path in POSIX form. */
  function PathOf(e: FileEntry): string {
    Join(e.parts, "/")
  }

  /** The last path component. */
  function Name(e: FileEntry): string {
    if e.parts == [] then "" else e.parts[|e.parts| - 1]
  }

  /** Index of the last `c` in `s`, or -1 (`str.rfind`). */
  function LastIndexOf(s: string, c: char): (r: int)
    ensures -1 <= r < |s|
    ensures r >= 0 ==> s[r] == c
    ensures forall j :: r < j < |s| ==> s[j] != c
  {
    if s == [] then -1
    else if s[|s| - 1] == c then |s| - 1
    else LastIndexOf(s[..|s| - 1], c)
  }

  /**
   * `PurePath.suffix`: from the last dot on, but only when that dot is neither
   * the first nor the last character of the name.
   */
  function Suffix(name: string): (r: string)
    ensures r != "" ==> 2 <= |r| < |name| && r == name[|name| - |r|..] && r[0] == '.' && '.' !in r[1..]
    ensures r == "" <==> name == [] || '.' !in name[1..] || name[|name| - 1] == '.'
  {
    var i := LastIndexOf(name, '.');
    assert i > 0 ==> name[i] == name[1..][i - 1];
    if 0 < i < |name| - 1 then
      assert forall j :: 0 <= j < |name| - i - 1 ==> name[i..][1..][j] == name[i + 1 + j];
      name[i..]
    else
      assert i <= 0 && name != [] ==> forall j :: 0 <= j < |name| - 1 ==> name[1..][j] == name[j + 1];
      ""
  }

  /** A name with a non-empty stem and a dot-free extension has that extension as suffix. */
  lemma SuffixOfExtension(stem: string, ext: string)
    requires stem != [] && ext != [] && '.' !in ext
    ensures Suffix(stem + "." + ext) == "." + ext
  {
    var name := stem + "." + ext;
    var i := LastIndexOf(name, '.');
    assert name[|stem|] == '.';
    assert forall j :: |stem| < j < |name| ==> name[j] == ext[j - |stem| - 1];
    assert i == |stem|;
    assert name[|stem|..] == "." + ext;
  }

  /** A dotfile whose name holds no other dot has no suffix: `.gitignore` and `.env` among them. */
  lemma DotfileHasNoSuffix(rest: string)
    requires '.' !in rest
    ensures Suffix("." + rest) == ""
  {
    var name := "." + rest;
    var i := LastIndexOf(name, '.');
    assert forall j :: 0 < j < |name| ==> name[j] == rest[j - 1];
    assert i <= 0;
  }

  /** A small file whose lower-cased suffix is a text extension may be inlined. */
  predicate Eligible(e: FileEntry) {
    Lower(Suffix(Name(e))) in InlineExts && e.size <= MaxInline
  }

  /** The file is inlined: it is eligible and its read succeeded. */
  predicate Inlined(e: FileEntry) {
    Eligible(e) && e.text.Some?
  }

  /**
   * A file record: `path`, `bytes`, `inline`, and `content` when there is
   * some. A failed read leaves `inline` false in the place it was first
   * written, with no `content`.
   */
  function Record(path: string, bytes: nat, content: Option<string>): (r: Value) {
    Obj([Prop("path", Str(path)), Prop("bytes", Num(bytes)), Prop("inline", Bool(content.Some?))]
        + (if content.Some? then [Prop("content", Str(content.value))] else []))
  }

  /** The record listed for one file: its content appears exactly when it is inlined. */
  function MakeItem(e: FileEntry): Value {
    Record(PathOf(e), e.size, if Inlined(e) then e.text else None)
  }

  /** How a record reads back: its path, its size, the flag, and the content exactly when flagged. */
  lemma RecordFields(path: string, bytes: nat, content: Option<string>)
    ensures var r := Record(path, bytes, content);
      && Get(r, "path") == Str(path) && Get(r, "bytes") == Num(bytes)
      && Get(r, "inline") == Bool(content.Some?)
      && Get(r, "content") == if content.Some? then Str(content.value) else Undefined
  {
    RecordHead(path, bytes, content);
    RecordContent(path, bytes, content);
  }

  lemma RecordHead(path: string, bytes: nat, content: Option<string>)
    ensures var r := Record(path, bytes, content);
      Get(r, "path") == Str(path) && Get(r, "bytes") == Num(bytes) && Get(r, "inline") == Bool(content.Some?)
  {
    var ps := Record(path, bytes, content).props;
    LookupFirst(ps, 0, "path");
    LookupFirst(ps, 1, "bytes");
    LookupFirst(ps, 2, "inline");
  }

  lemma RecordContent(path: string, bytes: nat, content: Option<string>)
    ensures Get(Record(path, bytes, content), "content") == if content.Some? then Str(content.value) else Undefined
  {
    var ps := Record(path, bytes, content).props;
    if content.Some? {
      LookupFirst(ps, 3, "content");
    } else {
      assert Keys(ps) == ["path", "bytes", "inline"];
    }
  }

  /**
   * What a file record says: its path and size, `inline` true exactly when the
   * file is eligible and was read, and `content` present exactly then.
   */
  lemma MakeItemFields(e: FileEntry)
    ensures var r := MakeItem(e);
      && Get(r, "path") == Str(PathOf(e)) && Get(r, "bytes") == Num(e.size)
      && Get(r, "inline") == Bool(Inlined(e))
      && (Inlined(e) ==> Get(r, "content") == Str(e.text.value))
      && (!Inlined(e) ==> Get(r, "content") == Undefined)
  {
    RecordFields(PathOf(e), e.size, if Inlined(e) then e.text else None);
  }

  /** `.gitignore` is listed among the text extensions but, having no suffix, is never inlined. */
  lemma GitignoreNeverInlined(e: FileEntry)
    requires Name(e) == ".gitignore"
    ensures !Inlined(e)
    ensures Get(MakeItem(e), "inline") == Bool(false)
  {
    assert ".gitignore" == "." + "gitignore";
    DotfileHasNoSuffix("gitignore");
    assert Lower(Suffix(Name(e))) == "";
    assert !Eligible(e);
    MakeItemFields(e);
  }

  /** The walk's entries that are not excluded, in walk order. */
  function Kept(es: seq<FileEntry>): (r: seq<FileEntry>)
    ensures |r| <= |es|
    ensures forall i :: 0 <= i < |r| ==> !Excluded(r[i])
    ensures (forall i :: 0 <= i < |es| ==> !Excluded(es[i])) ==> r == es
  {
    if es == [] then []
    else if Excluded(es[0]) then Kept(es[1..])
    else [es[0]] + Kept(es[1..])
  }

  /** Exactly the entries without an excluded component are kept, in walk order. */
  lemma {:induction false} KeptMembers(es: seq<FileEntry>)
    ensures forall e :: e in Kept(es) <==> e in es && !Excluded(e)
    ensures Ordering.Subsequence(Kept(es), es)
    decreases |es|
  {
    if es != [] {
      KeptMembers(es[1..]);
      assert es == [es[0]] + es[1..];
    }
  }

  /** The `files` list: one record per kept entry. */
  function Items(es: seq<FileEntry>): (r: seq<Value>)
    ensures |r| == |es|
    ensures forall i :: 0 <= i < |es| ==> r[i] == MakeItem(es[i])
  {
    seq(|es|, i requires 0 <= i < |es| => MakeItem(es[i]))
  }

  /** The paths of the kept entries. */
  function Paths(es: seq<FileEntry>): (r: seq<string>)
    ensures |r| == |es|
    ensures forall i :: 0 <= i < |es| ==> r[i] == PathOf(es[i])
  {
    seq(|es|, i requires 0 <= i < |es| => PathOf(es[i]))
  }

  // ---------------------------------------------------------------------------
  // The tree view
  // ---------------------------------------------------------------------------

  const NoFiles: string := "(repo minimal)"

  /** One tree line: two blanks per enclosing directory, a dash, then the file name. */
  function TreeLine(path: string): string {
    var parts := Split(path, '/');
    Spaces(2 * (|parts| - 1)) + "- " + parts[|parts| - 1]
  }

  function TreeLines(paths: seq<string>): (lines: seq<string>)
    ensures |lines| == |paths|
    ensures forall i :: 0 <= i < |paths| ==> lines[i] == TreeLine(paths[i])
  {
    seq(|paths|, i requires 0 <= i < |paths| => TreeLine(paths[i]))
  }

  /** `tree()`: the lines of the paths in ascending order, or a placeholder when there are none. */
  function Tree(paths: seq<string>): string {
    var lines := TreeLines(Ordering.Sort(paths));
    if lines == [] then NoFiles else Join(lines, "\n")
  }

  /** The line of a file is indented by its depth and ends with its name. */
  lemma TreeLineOfParts(parts: seq<string>)
    requires |parts| >= 1
    requires forall i :: 0 <= i < |parts| ==> '/' !in parts[i]
    ensures TreeLine(Join(parts, "/")) == Spaces(2 * (|parts| - 1)) + "- " + parts[|parts| - 1]
  {
    SplitJoin(parts, '/');
    TreeLineOfSplit(Join(parts, "/"), parts);
  }

  lemma TreeLineOfSplit(path: string, parts: seq<string>)
    requires |parts| >= 1 && Split(path, '/') == parts
    ensures TreeLine(path) == Spaces(2 * (|parts| - 1)) + "- " + parts[|parts| - 1]
  {
  }

  /** The placeholder appears exactly when there are no files. */
  lemma TreePlaceholderIffEmpty(paths: seq<string>)
    ensures Tree(paths) == NoFiles <==> paths == []
  {
    var sorted := Ordering.Sort(paths);
    assert |multiset(sorted)| == |multiset(paths)|;
    if paths != [] {
      var lines := TreeLines(sorted);
      assert lines[0][0] == ' ' || lines[0][0] == '-';
      JoinHead(lines, "\n");
      assert Tree(paths)[0] != '(';
    }
  }

  lemma JoinHead(parts: seq<string>, sep: string)
    requires |parts| >= 1 && parts[0] != []
    ensures Join(parts, sep) != [] && Join(parts, sep)[0] == parts[0][0]
  {
  }

  /** The tree forgets the walk order. */
  lemma TreeIgnoresOrder(paths: seq<string>, paths': seq<string>)
    requires multiset(paths) == multiset(paths')
    ensures Tree(paths) == Tree(paths')
  {
    Ordering.SortIgnoresOrder(paths, paths');
  }

  /** Every character of a part occurs in the join. */
  lemma {:induction false} JoinContainsParts(parts: seq<string>, sep: string)
    ensures forall i, c :: 0 <= i < |parts| && c in parts[i] ==> c in Join(parts, sep)
    decreases |parts|
  {
    if |parts| > 1 {
      JoinContainsParts(parts[1..], sep);
      var rest := Join(parts[1..], sep);
      assert Join(parts, sep) == parts[0] + sep + rest;
      forall i, c | 0 <= i < |parts| && c in parts[i]
        ensures c in Join(parts, sep)
      {
        if i > 0 {
          assert parts[i] == parts[1..][i - 1];
        }
      }
    }
  }

  /** A tree line has no line break when its path has none. */
  lemma TreeLineOneLine(path: string)
    requires '\n' !in path
    ensures '\n' !in TreeLine(path)
  {
    var parts := Split(path, '/');
    JoinContainsParts(parts, "/");
    assert Join(parts, "/") == path;
    assert '\n' !in parts[|parts| - 1];
  }

  /** Splitting the tree at line breaks gives one line per file, in ascending path order. */
  lemma TreeSplitsIntoLines(paths: seq<string>)
    requires paths != []
    requires forall i :: 0 <= i < |paths| ==> '\n' !in paths[i]
    ensures Split(Tree(paths), '\n') == TreeLines(Ordering.Sort(paths))
    ensures |Split(Tree(paths), '\n')| == |paths|
  {
    var sorted := Ordering.Sort(paths);
    assert |multiset(sorted)| == |multiset(paths)|;
    forall i | 0 <= i < |sorted| ensures '\n' !in sorted[i] {
      assert sorted[i] in multiset(paths);
    }
    var lines := TreeLines(sorted);
    forall i | 0 <= i < |lines| ensures '\n' !in lines[i] {
      TreeLineOneLine(sorted[i]);
    }
    SplitJoin(lines, '\n');
  }

  // ---------------------------------------------------------------------------
  // The YAML emitter
  // ---------------------------------------------------------------------------

  /** A Python value: nothing in it is JavaScript's `undefined`. */
  predicate PyValue(v: Value)
    decreases v
  {
    match v
    case Undefined => false
    case Arr(items) => forall x :: x in items ==> PyValue(x)
    case Obj(props) => forall p :: p in props ==> PyValue(p.val)
    case _ => true
  }

  /** Lower-case hexadecimal digits of `n`, four of them. */
  function Hex4(n: nat): (r: string)
    requires n < 0x10000
    ensures |r| == 4
    ensures forall i :: 0 <= i < 4 ==> r[i] in "0123456789abcdef"
  {
    var h := "0123456789abcdef";
    [h[n / 0x1000], h[n / 0x100 % 16], h[n / 16 % 16], h[n % 16]]
  }

  /**
   * How `json.dumps` writes one character of a string with its default
   * `ensure_ascii`: quote and backslash escaped, the five named control
   * escapes, other characters outside printable ASCII as `\uXXXX`, and
   * characters beyond the Basic Multilingual Plane as a surrogate pair.
   */
  function EscapeChar(c: char): (r: string)
    ensures r != []
    ensures forall i :: 0 <= i < |r| ==> ' ' <= r[i] <= '~'
  {
    if c == '"' then "\\\""
    else if c == '\\' then "\\\\"
    else if c == '\n' then "\\n"
    else if c == '\r' then "\\r"
    else if c == '\t' then "\\t"
    else if c == '\U{08}' then "\\b"
    else if c == '\U{0C}' then "\\f"
    else if ' ' <= c <= '~' then [c]
    else if (c as int) < 0x10000 then "\\u" + Hex4(c as int)
    else
      var n := c as int - 0x10000;
      "\\u" + Hex4(0xD800 + n / 0x400) + "\\u" + Hex4(0xDC00 + n % 0x400)
  }

  function Escape(s: string): (r: string)
    ensures forall i :: 0 <= i < |r| ==> ' ' <= r[i] <= '~'
  {
    if s == [] then "" else EscapeChar(s[0]) + Escape(s[1..])
  }

  /** A Python scalar: `None`, a boolean, an integer or a string. */
  predicate Scalar(v: Value) {
    !v.Undefined? && !v.Arr? && !v.Obj?
  }

  /** `json.dumps` of a scalar: a single line of printable ASCII. */
  function Dumps(v: Value): (r: string)
    requires Scalar(v)
    ensures r != [] && forall i :: 0 <= i < |r| ==> ' ' <= r[i] <= '~'
    ensures '\n' !in r
  {
    match v
    case Null => "null"
    case Bool(b) => if b then "true" else "false"
    case Num(n) => IntToString(n)
    case Str(s) => "\"" + Escape(s) + "\""
  }

  predicate Compound(v: Value) {
    v.Obj? || v.Arr?
  }

  function Indent(ind: nat): string {
    Spaces(2 * ind)
  }

  /**
   * `yml(v, ind)`: a mapping puts each key on its own line, a compound value
   * under it one level deeper; a list does the same with `-` markers; a
   * scalar is its JSON text. The pieces are joined with line breaks.
   */
  function Yml(v: Value, ind: nat): string
    requires PyValue(v)
    decreases v, 1
  {
    match v
    case Obj(props) => Join(PropLines(props, ind), "\n")
    case Arr(items) => Join(ItemLines(items, ind), "\n")
    case Undefined => assert false; ""
    case _ => Indent(ind) + Dumps(v)
  }

  function PropLines(props: seq<Prop>, ind: nat): (out: seq<string>)
    requires forall i :: 0 <= i < |props| ==> PyValue(props[i].val)
    decreases props, 0
  {
    if props == [] then []
    else
      var p := props[0];
      assert PyValue(p.val);
      var first := if Compound(p.val) then [Indent(ind) + p.key + ":", Yml(p.val, ind + 1)]
                   else [Indent(ind) + p.key + ": " + Dumps(p.val)];
      first + PropLines(props[1..], ind)
  }

  function ItemLines(items: seq<Value>, ind: nat): (out: seq<string>)
    requires forall i :: 0 <= i < |items| ==> PyValue(items[i])
    decreases items, 0
  {
    if items == [] then []
    else
      var it := items[0];
      assert PyValue(it);
      var first := if Compound(it) then [Indent(ind) + "-", Yml(it, ind + 1)]
                   else [Indent(ind) + "- " + Dumps(it)];
      first + ItemLines(items[1..], ind)
  }

  /** An empty mapping or list emits nothing at all. */
  lemma YmlEmptyContainer(ind: nat)
    ensures Yml(Obj([]), ind) == "" && Yml(Arr([]), ind) == ""
  {
  }

  /** A mapping holding only scalars: one line per key, `key: json`, in insertion order. */
  lemma {:induction false} FlatPropLines(props: seq<Prop>, ind: nat)
    requires forall i :: 0 <= i < |props| ==> Scalar(props[i].val) && PyValue(props[i].val)
    ensures |PropLines(props, ind)| == |props|
    ensures forall i :: 0 <= i < |props| ==>
      PropLines(props, ind)[i] == Indent(ind) + props[i].key + ": " + Dumps(props[i].val)
    decreases |props|
  {
    if props != [] {
      FlatPropLines(props[1..], ind);
      var rest := PropLines(props[1..], ind);
      assert PropLines(props, ind) == [Indent(ind) + props[0].key + ": " + Dumps(props[0].val)] + rest;
      forall i | 1 <= i < |props|
        ensures PropLines(props, ind)[i] == Indent(ind) + props[i].key + ": " + Dumps(props[i].val)
      {
        assert props[1..][i - 1] == props[i];
      }
    }
  }

  /** A `key: json` line holds no line break when its key holds none. */
  lemma KeyLineUnbroken(ind: nat, key: string, v: Value)
    requires Scalar(v) && '\n' !in key
    ensures '\n' !in Indent(ind) + key + ": " + Dumps(v)
  {
    var sp := Indent(ind);
    assert '\n' !in sp by {
      forall j | 0 <= j < |sp| ensures sp[j] != '\n' { }
    }
    assert '\n' !in ": ";
  }

  lemma FlatIsPyValue(props: seq<Prop>)
    requires forall i :: 0 <= i < |props| ==> Scalar(props[i].val)
    ensures PyValue(Obj(props))
  {
    forall p | p in props ensures PyValue(p.val) {
      var i :| 0 <= i < |props| && props[i] == p;
    }
  }

  /**
   * Reading a flat mapping's YAML back line by line gives exactly one
   * `key: json` line per key when no key holds a line break.
   */
  lemma FlatMappingLines(props: seq<Prop>, ind: nat)
    requires props != []
    requires forall i :: 0 <= i < |props| ==> Scalar(props[i].val)
    requires forall i :: 0 <= i < |props| ==> '\n' !in props[i].key
    ensures PyValue(Obj(props))
    ensures Split(Yml(Obj(props), ind), '\n') == PropLines(props, ind)
    ensures |Split(Yml(Obj(props), ind), '\n')| == |props|
  {
    FlatIsPyValue(props);
    var lines := PropLines(props, ind);
    FlatPropLines(props, ind);
    forall i | 0 <= i < |lines| ensures '\n' !in lines[i] {
      KeyLineUnbroken(ind, props[i].key, props[i].val);
    }
    SplitJoin(lines, '\n');
  }

  // ---------------------------------------------------------------------------
  // Indentation of the emitted YAML
  // ---------------------------------------------------------------------------

  /** Position `i` begins a line of `s`. */
  predicate LineStart(s: string, i: nat)
    requires i <= |s|
  {
    i == 0 || s[i - 1] == '\n'
  }

  /** Every non-empty line of `s` begins with `n` blanks. */
  predicate LinesIndented(s: string, n: nat) {
    forall i :: 0 <= i < |s| && LineStart(s, i) && s[i] != '\n' ==> i + n <= |s| && s[i..i + n] == Spaces(n)
  }

  /** A single line that starts with `n` blanks. */
  lemma OneLineIndented(n: nat, rest: string)
    requires '\n' !in rest
    ensures LinesIndented(Spaces(n) + rest, n)
  {
    var s := Spaces(n) + rest;
    forall j | 0 <= j < |s| ensures s[j] != '\n' {
      if j >= n {
        assert s[j] == rest[j - n];
      }
    }
    forall i | 0 <= i < |s| && LineStart(s, i) && s[i] != '\n'
      ensures i + n <= |s| && s[i..i + n] == Spaces(n)
    {
      assert i == 0;
      assert s[..n] == Spaces(n);
    }
  }

  /** Deeper indentation is in particular shallower indentation. */
  lemma IndentedWeaken(s: string, m: nat, n: nat)
    requires n <= m && LinesIndented(s, m)
    ensures LinesIndented(s, n)
  {
    forall i | 0 <= i < |s| && LineStart(s, i) && s[i] != '\n'
      ensures i + n <= |s| && s[i..i + n] == Spaces(n)
    {
      assert s[i..i + m] == Spaces(m);
      assert s[i..i + n] == s[i..i + m][..n];
    }
  }

  /** Putting a line break between two indented texts keeps them indented. */
  lemma IndentedConcat(a: string, b: string, n: nat)
    requires LinesIndented(a, n) && LinesIndented(b, n)
    ensures LinesIndented(a + "\n" + b, n)
  {
    var s := a + "\n" + b;
    forall i | 0 <= i < |s| && LineStart(s, i) && s[i] != '\n'
      ensures i + n <= |s| && s[i..i + n] == Spaces(n)
    {
      if i < |a| {
        assert LineStart(a, i);
        assert a[i] == s[i];
        assert s[i..i + n] == a[i..i + n];
      } else {
        var j := i - |a| - 1;
        assert 0 <= j < |b| && b[j] == s[i];
        if j > 0 {
          assert s[i - 1] == b[j - 1];
        }
        assert LineStart(b, j);
        assert s[i..i + n] == b[j..j + n];
      }
    }
  }

  /** Joining indented texts with line breaks keeps them indented. */
  lemma {:induction false} IndentedJoin(parts: seq<string>, n: nat)
    requires forall i :: 0 <= i < |parts| ==> LinesIndented(parts[i], n)
    ensures LinesIndented(Join(parts, "\n"), n)
    decreases |parts|
  {
    if |parts| > 1 {
      IndentedJoin(parts[1..], n);
      IndentedConcat(parts[0], Join(parts[1..], "\n"), n);
    } else if |parts| == 0 {
      assert Join(parts, "\n") == "";
    }
  }

  /** No mapping key anywhere in `v` holds a line break. */
  predicate KeysOneLine(v: Value)
    decreases v
  {
    match v
    case Arr(items) => forall x :: x in items ==> KeysOneLine(x)
    case Obj(props) => forall p :: p in props ==> '\n' !in p.key && KeysOneLine(p.val)
    case _ => true
  }

  /** Every non-empty line `yml(v, ind)` emits starts with at least `2 * ind` blanks. */
  lemma {:induction false} YmlIndented(v: Value, ind: nat)
    requires PyValue(v) && KeysOneLine(v)
    ensures LinesIndented(Yml(v, ind), 2 * ind)
    decreases v, 1
  {
    match v
    case Obj(props) =>
      PropLinesIndented(props, ind);
      IndentedJoin(PropLines(props, ind), 2 * ind);
    case Arr(items) =>
      ItemLinesIndented(items, ind);
      IndentedJoin(ItemLines(items, ind), 2 * ind);
    case Undefined =>
      assert false;
    case _ =>
      OneLineIndented(2 * ind, Dumps(v));
  }

  lemma {:induction false} PropLinesIndented(props: seq<Prop>, ind: nat)
    requires forall i :: 0 <= i < |props| ==> PyValue(props[i].val)
    requires forall i :: 0 <= i < |props| ==> '\n' !in props[i].key && KeysOneLine(props[i].val)
    ensures forall i :: 0 <= i < |PropLines(props, ind)| ==> LinesIndented(PropLines(props, ind)[i], 2 * ind)
    decreases props, 0
  {
    if props != [] {
      var p := props[0];
      assert PyValue(p.val) && KeysOneLine(p.val) && '\n' !in p.key;
      PropLinesIndented(props[1..], ind);
      var first := if Compound(p.val) then [Indent(ind) + p.key + ":", Yml(p.val, ind + 1)]
                   else [Indent(ind) + p.key + ": " + Dumps(p.val)];
      if Compound(p.val) {
        OneLineIndented(2 * ind, p.key + ":");
        assert Indent(ind) + p.key + ":" == Spaces(2 * ind) + (p.key + ":");
        YmlIndented(p.val, ind + 1);
        IndentedWeaken(Yml(p.val, ind + 1), 2 * (ind + 1), 2 * ind);
      } else {
        OneLineIndented(2 * ind, p.key + ": " + Dumps(p.val));
        assert Indent(ind) + p.key + ": " + Dumps(p.val) == Spaces(2 * ind) + (p.key + ": " + Dumps(p.val));
      }
      assert PropLines(props, ind) == first + PropLines(props[1..], ind);
    }
  }

  lemma {:induction false} ItemLinesIndented(items: seq<Value>, ind: nat)
    requires forall i :: 0 <= i < |items| ==> PyValue(items[i]) && KeysOneLine(items[i])
    ensures forall i :: 0 <= i < |ItemLines(items, ind)| ==> LinesIndented(ItemLines(items, ind)[i], 2 * ind)
    decreases items, 0
  {
    if items != [] {
      var it := items[0];
      assert PyValue(it) && KeysOneLine(it);
      ItemLinesIndented(items[1..], ind);
      var first := if Compound(it) then [Indent(ind) + "-", Yml(it, ind + 1)]
                   else [Indent(ind) + "- " + Dumps(it)];
      if Compound(it) {
        OneLineIndented(2 * ind, "-");
        YmlIndented(it, ind + 1);
        IndentedWeaken(Yml(it, ind + 1), 2 * (ind + 1), 2 * ind);
      } else {
        OneLineIndented(2 * ind, "- " + Dumps(it));
        assert Indent(ind) + "- " + Dumps(it) == Spaces(2 * ind) + ("- " + Dumps(it));
      }
      assert ItemLines(items, ind) == first + ItemLines(items[1..], ind);
    }
  }

  // ---------------------------------------------------------------------------
  // The snapshot document
  // ---------------------------------------------------------------------------

  /** The six `git` readings; a failing `git` call reads as the empty string. */
  datatype GitInfo = GitInfo(branch: string, remoteUrl: string, lastCommitHash: string,
                             lastCommitMsg: string, lastCommitAuthor: string, lastCommitDate: string)

  const GitKeys: seq<string> :=
    ["branch", "remote_url", "last_commit_hash", "last_commit_msg", "last_commit_author", "last_commit_date"]

  function GitValue(g: GitInfo): (r: Value)
    ensures r.Obj? && Keys(r.props) == GitKeys
    ensures forall i :: 0 <= i < |r.props| ==> r.props[i].val.Str?
  {
    Obj([Prop("branch", Str(g.branch)), Prop("remote_url", Str(g.remoteUrl)),
         Prop("last_commit_hash", Str(g.lastCommitHash)), Prop("last_commit_msg", Str(g.lastCommitMsg)),
         Prop("last_commit_author", Str(g.lastCommitAuthor)), Prop("last_commit_date", Str(g.lastCommitDate))])
  }

  function ProjectValue(name: string, root: string): Value {
    Obj([Prop("name", Str(name)), Prop("root", Str(root))])
  }

  function SummaryValue(count: nat, tree: string): Value {
    Obj([Prop("file_count", Num(count)), Prop("tree", Str(tree))])
  }

  const Commands: Value :=
    Obj([Prop("generate_snapshot", Str("python3 tools/stp_make.py")), Prop("verify_outputs", Str("ls -la dist"))])

  const NextActions: Value :=
    Arr([Str("Review dist/prompt_pack.md for accuracy"),
         Str("Paste prompt_pack.md into a fresh AI thread if transferring context")])

  const TopKeys: seq<string> :=
    ["stp_version", "generated_at", "project", "git", "summary", "commands", "next_actions", "files"]

  /** The document's top-level members, in the order the generator writes them. */
  function Layout(now: string, project: Value, git: Value, summary: Value, commands: Value,
                  nextActions: Value, files: seq<Value>): (doc: Value)
    ensures doc.Obj? && Keys(doc.props) == TopKeys
  {
    Obj([
      Prop("stp_version", Str("1")),
      Prop("generated_at", Str(now)),
      Prop("project", project),
      Prop("git", git),
      Prop("summary", summary),
      Prop("commands", commands),
      Prop("next_actions", nextActions),
      Prop("files", Arr(files))])
  }

  /**
   * The snapshot written to `dist/stp.yaml`, given the clock reading, the
   * repository's name and absolute root, the `git` readings and the walk.
   */
  function Stp(now: string, name: string, root: string, g: GitInfo, walk: seq<FileEntry>): (doc: Value)
    ensures doc.Obj?
  {
    var kept := Kept(walk);
    var files := Items(kept);
    Layout(now, ProjectValue(name, root), GitValue(g), SummaryValue(|files|, Tree(Paths(kept))),
           Commands, NextActions, files)
  }

  lemma LayoutSummary(now: string, project: Value, git: Value, summary: Value, commands: Value,
                      nextActions: Value, files: seq<Value>)
    ensures Get(Layout(now, project, git, summary, commands, nextActions, files), "summary") == summary
  {
    LookupFirst(Layout(now, project, git, summary, commands, nextActions, files).props, 4, "summary");
  }

  lemma LayoutFiles(now: string, project: Value, git: Value, summary: Value, commands: Value,
                    nextActions: Value, files: seq<Value>)
    ensures Get(Layout(now, project, git, summary, commands, nextActions, files), "files") == Arr(files)
  {
    LookupFirst(Layout(now, project, git, summary, commands, nextActions, files).props, 7, "files");
  }

  lemma SummaryFields(count: nat, tree: string)
    ensures Get(SummaryValue(count, tree), "file_count") == Num(count)
    ensures Get(SummaryValue(count, tree), "tree") == Str(tree)
  {
    LookupFirst(SummaryValue(count, tree).props, 0, "file_count");
    LookupFirst(SummaryValue(count, tree).props, 1, "tree");
  }

  /**
   * `summary.file_count` counts the `files` list, one record per walked file
   * without an excluded component, and `summary.tree` is the tree of their paths.
   */
  lemma StpSummary(now: string, name: string, root: string, g: GitInfo, walk: seq<FileEntry>)
    ensures var doc := Stp(now, name, root, g, walk);
      && Get(doc, "files") == Arr(Items(Kept(walk)))
      && Get(Get(doc, "summary"), "file_count") == Num(|Get(doc, "files").items|)
      && |Get(doc, "files").items| == |Kept(walk)|
      && Get(Get(doc, "summary"), "tree") == Str(Tree(Paths(Kept(walk))))
  {
    var kept := Kept(walk);
    var files := Items(kept);
    var summary := SummaryValue(|files|, Tree(Paths(kept)));
    LayoutSummary(now, ProjectValue(name, root), GitValue(g), summary, Commands, NextActions, files);
    LayoutFiles(now, ProjectValue(name, root), GitValue(g), summary, Commands, NextActions, files);
    SummaryFields(|files|, Tree(Paths(kept)));
  }

  /** A file record has no `undefined` and no multi-line key. */
  lemma RecordEmittable(path: string, bytes: nat, content: Option<string>)
    ensures PyValue(Record(path, bytes, content)) && KeysOneLine(Record(path, bytes, content))
  {
  }

  lemma LayoutPy(now: string, project: Value, git: Value, summary: Value, commands: Value,
                 nextActions: Value, files: seq<Value>)
    requires PyValue(project) && PyValue(git) && PyValue(summary) && PyValue(commands) && PyValue(nextActions)
    requires forall x :: x in files ==> PyValue(x)
    ensures PyValue(Layout(now, project, git, summary, commands, nextActions, files))
  {
  }

  lemma LayoutKeysOneLine(now: string, project: Value, git: Value, summary: Value, commands: Value,
                          nextActions: Value, files: seq<Value>)
    requires KeysOneLine(project) && KeysOneLine(git) && KeysOneLine(summary) && KeysOneLine(commands)
    requires KeysOneLine(nextActions)
    requires forall x :: x in files ==> KeysOneLine(x)
    ensures KeysOneLine(Layout(now, project, git, summary, commands, nextActions, files))
  {
    var ps := Layout(now, project, git, summary, commands, nextActions, files).props;
    TopKeysOneLine();
    KeysListedOneLine(ps, TopKeys);
  }

  lemma TopKeysOneLine()
    ensures forall k: string :: k in TopKeys ==> '\n' !in k
  {
  }

  lemma KeysListedOneLine(props: seq<Prop>, ks: seq<string>)
    requires Keys(props) == ks
    requires forall k: string :: k in ks ==> '\n' !in k
    ensures forall p :: p in props ==> '\n' !in p.key
  {
    forall p | p in props ensures '\n' !in p.key {
      var i :| 0 <= i < |props| && props[i] == p;
      assert p.key == ks[i];
    }
  }

  lemma PartsPy(name: string, root: string, g: GitInfo, count: nat, tree: string)
    ensures PyValue(ProjectValue(name, root)) && PyValue(GitValue(g)) && PyValue(SummaryValue(count, tree))
  {
  }

  lemma CommandsPy()
    ensures PyValue(Commands)
  {
  }

  lemma NextActionsPy()
    ensures PyValue(NextActions)
  {
  }

  lemma ProjectKeysOneLine(name: string, root: string)
    ensures KeysOneLine(ProjectValue(name, root))
  {
    assert '\n' !in "name" && '\n' !in "root";
  }

  lemma SummaryKeysOneLine(count: nat, tree: string)
    ensures KeysOneLine(SummaryValue(count, tree))
  {
    assert '\n' !in "file_count" && '\n' !in "tree";
  }

  /** A mapping of scalars whose keys, listed in `ks`, hold no line break. */
  lemma FlatKeysOneLine(props: seq<Prop>, ks: seq<string>)
    requires Keys(props) == ks
    requires forall k: string :: k in ks ==> '\n' !in k
    requires forall i :: 0 <= i < |props| ==> Scalar(props[i].val)
    ensures KeysOneLine(Obj(props))
  {
    KeysListedOneLine(props, ks);
    forall p | p in props ensures KeysOneLine(p.val) {
      var i :| 0 <= i < |props| && props[i] == p;
    }
  }

  lemma GitKeysOneLine(g: GitInfo)
    ensures KeysOneLine(GitValue(g))
  {
    assert forall k: string :: k in GitKeys ==> '\n' !in k;
    FlatKeysOneLine(GitValue(g).props, GitKeys);
  }

  lemma CommandsKeysOneLine()
    ensures KeysOneLine(Commands)
  {
    assert '\n' !in "generate_snapshot" && '\n' !in "verify_outputs";
  }

  lemma NextActionsKeysOneLine()
    ensures KeysOneLine(NextActions)
  {
  }

  /** The whole document is something the emitter handles, with single-line keys. */
  lemma StpEmittable(now: string, name: string, root: string, g: GitInfo, walk: seq<FileEntry>)
    ensures PyValue(Stp(now, name, root, g, walk)) && KeysOneLine(Stp(now, name, root, g, walk))
  {
    var kept := Kept(walk);
    var files := Items(kept);
    forall x | x in files ensures PyValue(x) && KeysOneLine(x) {
      var i :| 0 <= i < |files| && files[i] == x;
      var e := kept[i];
      RecordEmittable(PathOf(e), e.size, if Inlined(e) then e.text else None);
    }
    var project, git, summary := ProjectValue(name, root), GitValue(g), SummaryValue(|files|, Tree(Paths(kept)));
    PartsPy(name, root, g, |files|, Tree(Paths(kept)));
    CommandsPy();
    NextActionsPy();
    LayoutPy(now, project, git, summary, Commands, NextActions, files);
    ProjectKeysOneLine(name, root);
    GitKeysOneLine(g);
    SummaryKeysOneLine(|files|, Tree(Paths(kept)));
    CommandsKeysOneLine();
    NextActionsKeysOneLine();
    LayoutKeysOneLine(now, project, git, summary, Commands, NextActions, files);
  }

  /** The line a scalar member is written as. */
  function KeyLine(ind: nat, p: Prop): string
    requires Scalar(p.val)
  {
    Indent(ind) + p.key + ": " + Dumps(p.val)
  }

  lemma ScalarHeadLine(props: seq<Prop>, ind: nat)
    requires props != [] && Scalar(props[0].val)
    requires forall i :: 0 <= i < |props| ==> PyValue(props[i].val)
    ensures PropLines(props, ind) == [KeyLine(ind, props[0])] + PropLines(props[1..], ind)
  {
  }

  lemma PropLinesNonEmpty(props: seq<Prop>, ind: nat)
    requires props != []
    requires forall i :: 0 <= i < |props| ==> PyValue(props[i].val)
    ensures PropLines(props, ind) != []
  {
  }

  lemma JoinTwoHead(l0: string, l1: string, rest: seq<string>, sep: string)
    requires rest != []
    ensures l0 + sep + l1 + sep <= Join([l0] + ([l1] + rest), sep)
  {
    var parts := [l0] + ([l1] + rest);
    assert parts[1..] == [l1] + rest;
    assert ([l1] + rest)[1..] == rest;
    assert Join(parts, sep) == l0 + sep + (l1 + sep + Join(rest, sep));
  }

  /** A mapping whose first two members are scalars opens with their two key lines. */
  lemma MappingHead(props: seq<Prop>, ind: nat)
    requires |props| >= 3
    requires forall i :: 0 <= i < |props| ==> PyValue(props[i].val)
    requires Scalar(props[0].val) && Scalar(props[1].val)
    ensures PyValue(Obj(props))
    ensures KeyLine(ind, props[0]) + "\n" + KeyLine(ind, props[1]) + "\n" <= Yml(Obj(props), ind)
  {
    var tail := props[1..];
    var tail2 := tail[1..];
    assert forall i :: 0 <= i < |tail| ==> tail[i] == props[i + 1];
    assert forall i :: 0 <= i < |tail2| ==> tail2[i] == tail[i + 1];
    ScalarHeadLine(props, ind);
    ScalarHeadLine(tail, ind);
    PropLinesNonEmpty(tail2, ind);
    JoinTwoHead(KeyLine(ind, props[0]), KeyLine(ind, tail[0]), PropLines(tail2, ind), "\n");
  }

  /**
   * The first two lines of the snapshot's YAML: the format version and the
   * generation time, as `VersionLine` and `TimeLine` spell them out.
   */
  function HeadLines(now: string): string {
    KeyLine(0, Prop("stp_version", Str("1"))) + "\n" + KeyLine(0, Prop("generated_at", Str(now))) + "\n"
  }

  /** The version line reads `stp_version: "1"`. */
  lemma VersionLine()
    ensures KeyLine(0, Prop("stp_version", Str("1"))) == "stp_version: \"1\""
  {
    assert Dumps(Str("1")) == "\"1\"";
    assert Indent(0) == "";
  }

  /** The time line is the key, a colon and a blank, and the JSON text of the stamp. */
  lemma TimeLine(now: string)
    ensures KeyLine(0, Prop("generated_at", Str(now))) == "generated_at" + ": " + Dumps(Str(now))
  {
    assert Indent(0) == "";
  }

  /** The document opens with the version and time lines, whatever its other members. */
  lemma LayoutHead(now: string, project: Value, git: Value, summary: Value, commands: Value,
                   nextActions: Value, files: seq<Value>)
    requires PyValue(Layout(now, project, git, summary, commands, nextActions, files))
    ensures HeadLines(now) <= Yml(Layout(now, project, git, summary, commands, nextActions, files), 0)
  {
    var props := Layout(now, project, git, summary, commands, nextActions, files).props;
    var p0, p1 := props[0], props[1];
    assert p0 == Prop("stp_version", Str("1"));
    assert p1 == Prop("generated_at", Str(now));
    assert forall i :: 0 <= i < |props| ==> PyValue(props[i].val) by {
      assert forall i :: 0 <= i < |props| ==> props[i] in props;
    }
    MappingHead(props, 0);
  }

  /** `dist/stp.yaml`: the snapshot through the emitter, opening with the version and time lines. */
  function StpYaml(now: string, name: string, root: string, g: GitInfo, walk: seq<FileEntry>): (text: string)
    ensures HeadLines(now) <= text
  {
    var kept := Kept(walk);
    var files := Items(kept);
    StpEmittable(now, name, root, g, walk);
    LayoutHead(now, ProjectValue(name, root), GitValue(g), SummaryValue(|files|, Tree(Paths(kept))),
               Commands, NextActions, files);
    Yml(Stp(now, name, root, g, walk), 0)
  }

  /** `json.dumps` leaves printable ASCII other than quote and backslash as it is. */
  lemma {:induction false} EscapePlain(s: string)
    requires forall i :: 0 <= i < |s| ==> ' ' <= s[i] <= '~' && s[i] != '"' && s[i] != '\\'
    ensures Escape(s) == s
  {
    if s != [] {
      EscapePlain(s[1..]);
    }
  }
}
