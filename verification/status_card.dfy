/**
 * The status card of `frontend/src/components/StatusCard.jsx`: the health
 * line derived from the `/healthz` reply, and the generation time and
 * branch/tag lines pulled out of the project snapshot's YAML text by
 * `parseFromYaml`, which matches three multi-line regular expressions
 * against the text instead of parsing it.
 *
 * The regular expressions are modelled exactly as a backtracking engine runs
 * them: `^` and `$` under the `m` flag match at the ends of the text and next
 * to a line terminator, `\s` is JavaScript whitespace (line terminators
 * included, so `\s*` may run across lines), `.` is any character but a line
 * terminator, and `match` without the `g` flag reports the leftmost match.
 */
module StatusCard {
  import opened Wrappers
  import opened Strings
  import opened Json
  import StpMake

  // ---------------------------------------------------------------------------
  // Positions in the text
  // ---------------------------------------------------------------------------

  /** `^` under the `m` flag: the start of the text or just after a line terminator. */
  predicate LineStart(text: string, p: nat)
    requires p <= |text|
  {
    p == 0 || IsLineTerminator(text[p - 1])
  }

  /** Only whitespace lies from `a` up to `b`. */
  predicate SpaceBetween(text: string, a: nat, b: nat)
    requires a <= b <= |text|
  {
    forall i :: a <= i < b ==> IsJsSpace(text[i])
  }

  /** Where a greedy `\s*` started at `p` stops: the first non-whitespace position. */
  function SkipSpace(text: string, p: nat): (q: nat)
    requires p <= |text|
    ensures p <= q <= |text|
    ensures SpaceBetween(text, p, q)
    ensures q < |text| ==> !IsJsSpace(text[q])
    decreases |text| - p
  {
    if p < |text| && IsJsSpace(text[p]) then SkipSpace(text, p + 1) else p
  }

  /** Where a greedy `.+` started at `k` stops: the next line terminator or the end. */
  function LineEnd(text: string, k: nat): (e: nat)
    requires k <= |text|
    ensures k <= e <= |text|
    ensures forall i :: k <= i < e ==> !IsLineTerminator(text[i])
    ensures e < |text| ==> IsLineTerminator(text[e])
    decreases |text| - k
  {
    if k < |text| && !IsLineTerminator(text[k]) then LineEnd(text, k + 1) else k
  }

  /** No line terminator occurs in `s`. */
  predicate OneLine(s: string) {
    forall i :: 0 <= i < |s| ==> !IsLineTerminator(s[i])
  }

  // ---------------------------------------------------------------------------
  // `\s*(.+)$`
  // ---------------------------------------------------------------------------

  /**
   * `j` is a place where the captured group can begin after `\s*` started at
   * `c0`: only whitespace lies between, and `.+` can take at least one
   * character there. The group then runs to the end of that line, where `$`
   * holds.
   */
  predicate GroupStart(text: string, c0: nat, j: nat)
    requires c0 <= |text|
  {
    c0 <= j < |text| && SpaceBetween(text, c0, j) && !IsLineTerminator(text[j])
  }

  /** The backtracking of `\s*`: try the longest whitespace run first, then shorter ones. */
  function CaptureBack(text: string, c0: nat, k: nat): (r: Option<string>)
    requires c0 <= k <= |text|
    ensures r.Some? ==> OneLine(r.value)
    decreases k
  {
    if k < |text| && !IsLineTerminator(text[k]) then Some(text[k..LineEnd(text, k)])
    else if k == c0 then None
    else CaptureBack(text, c0, k - 1)
  }

  /** The group captured by `\s*(.+)$` started at `c0`, if that suffix matches there. */
  function Capture(text: string, c0: nat): (r: Option<string>)
    requires c0 <= |text|
    ensures r.Some? ==> OneLine(r.value)
  {
    CaptureBack(text, c0, SkipSpace(text, c0))
  }

  lemma {:induction false} CaptureBackSpec(text: string, c0: nat, k: nat)
    requires c0 <= k <= |text|
    requires SpaceBetween(text, c0, k)
    ensures CaptureBack(text, c0, k).None? <==> forall j :: c0 <= j <= k ==> !GroupStart(text, c0, j)
    ensures CaptureBack(text, c0, k).Some? ==> exists j: nat :: (
      && c0 <= j <= k && GroupStart(text, c0, j)
      && CaptureBack(text, c0, k).value == text[j..LineEnd(text, j)]
      && forall j' :: j < j' <= k ==> !GroupStart(text, c0, j'))
    decreases k
  {
    if k < |text| && !IsLineTerminator(text[k]) {
      assert GroupStart(text, c0, k);
    } else if k > c0 {
      CaptureBackSpec(text, c0, k - 1);
    }
  }

  /**
   * The capture is the greedy one: it fails exactly when the group can begin
   * nowhere, and otherwise it begins at the LAST place it can, so that `\s*`
   * takes as much whitespace as it can, and runs to the end of that line.
   */
  lemma CaptureGreedy(text: string, c0: nat)
    requires c0 <= |text|
    ensures Capture(text, c0).None? <==> forall j :: c0 <= j < |text| ==> !GroupStart(text, c0, j)
    ensures Capture(text, c0).Some? ==> exists j: nat :: (
      && GroupStart(text, c0, j)
      && Capture(text, c0).value == text[j..LineEnd(text, j)]
      && forall j' :: j < j' < |text| ==> !GroupStart(text, c0, j'))
  {
    var e := SkipSpace(text, c0);
    CaptureBackSpec(text, c0, e);
    forall j' | e < j' < |text| ensures !GroupStart(text, c0, j') {
      assert !IsJsSpace(text[e]);
    }
  }

  // ---------------------------------------------------------------------------
  // The whole pattern and `String.prototype.match`
  // ---------------------------------------------------------------------------

  /**
   * The pattern `^key:\s*(.+)$` with the `m` flag, or `^\s*key:\s*(.+)$`
   * when `indented` holds, tried at position `p`: the captured group, if it
   * matches there. A leading `\s*` never has to give anything back, since
   * the key does not start with whitespace.
   */
  function MatchAt(text: string, p: nat, key: string, indented: bool): (r: Option<string>)
    requires p <= |text|
    ensures r.Some? ==> OneLine(r.value)
  {
    if !LineStart(text, p) then None
    else
      var k := if indented then SkipSpace(text, p) else p;
      if key + ":" <= text[k..] then Capture(text, k + |key| + 1) else None
  }

  /** The outcome of trying the pattern at every position, in the order the engine tries them. */
  function Attempts(text: string, key: string, indented: bool): (ms: seq<Option<string>>)
    ensures |ms| == |text| + 1
    ensures forall q :: 0 <= q <= |text| ==> ms[q] == MatchAt(text, q, key, indented)
  {
    seq(|text| + 1, q requires 0 <= q <= |text| => MatchAt(text, q, key, indented))
  }

  /** The first outcome that is a match, at or after `p`. */
  function FirstSome(ms: seq<Option<string>>, p: nat): (r: Option<string>)
    requires p <= |ms|
    ensures r.None? <==> forall q :: p <= q < |ms| ==> ms[q].None?
    ensures r.Some? ==> exists q :: (
      && p <= q < |ms| && ms[q] == r
      && forall q' :: p <= q' < q ==> ms[q'].None?)
    decreases |ms| - p
  {
    if p == |ms| then None
    else if ms[p].Some? then ms[p]
    else FirstSome(ms, p + 1)
  }

  /** The leftmost match, as a non-global `match` reports it. */
  function Find(text: string, key: string, indented: bool): (r: Option<string>)
    ensures r.Some? ==> OneLine(r.value)
    ensures r.None? <==> forall q :: 0 <= q <= |text| ==> MatchAt(text, q, key, indented).None?
    ensures r.Some? ==> exists q :: (
      && 0 <= q <= |text| && MatchAt(text, q, key, indented) == r
      && forall q' :: 0 <= q' < q ==> MatchAt(text, q', key, indented).None?)
  {
    AttemptsOneLine(text, key, indented);
    FirstSome(Attempts(text, key, indented), 0)
  }

  lemma AttemptsOneLine(text: string, key: string, indented: bool)
    ensures var r := FirstSome(Attempts(text, key, indented), 0);
      r.Some? ==> OneLine(r.value)
  {
    var ms := Attempts(text, key, indented);
    var r := FirstSome(ms, 0);
    if r.Some? {
      var q :| 0 <= q < |ms| && ms[q] == r && forall q' :: 0 <= q' < q ==> ms[q'].None?;
      assert MatchAt(text, q, key, indented) == r;
    }
  }

  // ---------------------------------------------------------------------------
  // `getLine` and `parseFromYaml`
  // ---------------------------------------------------------------------------

  /**
   * `s.replace(/^"|"$/g, "")`: one double quote at the very start and one at
   * the very end are removed; a lone `"` is removed once.
   */
  function StripQuotes(s: string): (r: string)
    ensures |s| - 2 <= |r| <= |s|
    ensures forall c :: c in r ==> c in s
  {
    var t := if s != [] && s[0] == '"' then s[1..] else s;
    if t != [] && t[|t| - 1] == '"' then t[..|t| - 1] else t
  }

  /** Quoting a text and stripping the quotes gives the text back. */
  lemma StripQuotesOfQuoted(t: string)
    ensures StripQuotes("\"" + t + "\"") == t
  {
    assert ("\"" + t + "\"")[1..] == t + "\"";
  }

  /** A text with no quote at either end is left alone. */
  lemma StripQuotesUnquoted(t: string)
    requires t == [] || (t[0] != '"' && t[|t| - 1] != '"')
    ensures StripQuotes(t) == t
  {
  }

  const Unknown: string := "unknown"

  /** A group after `getLine`'s clean-up: quotes stripped, then trimmed. */
  function Cleaned(g: string): (r: string)
    ensures OneLine(g) ==> OneLine(r)
    ensures r != [] ==> !IsJsSpace(r[0]) && !IsJsSpace(r[|r| - 1])
  {
    CleanedShape(g);
    JsTrim(StripQuotes(g))
  }

  lemma CleanedShape(g: string)
    ensures var r := JsTrim(StripQuotes(g));
      r != [] ==> !IsJsSpace(r[0]) && !IsJsSpace(r[|r| - 1])
    ensures OneLine(g) ==> OneLine(JsTrim(StripQuotes(g)))
  {
    var t := StripQuotes(g);
    var r := JsTrim(t);
    TrimSubset(t, IsJsSpace);
    if r != [] {
      assert r[0] == TrimStart(t, IsJsSpace)[0];
    }
    if OneLine(g) {
      forall i | 0 <= i < |r| ensures !IsLineTerminator(r[i]) {
        assert r[i] in t;
        var j :| 0 <= j < |g| && g[j] == r[i];
      }
    }
  }

  /** The value `getLine` yields for the outcome of a search. */
  function Finish(m: Option<string>): (r: string)
    ensures m.None? ==> r == Unknown
    ensures (m.Some? ==> OneLine(m.value)) ==> OneLine(r)
    ensures r != [] ==> !IsJsSpace(r[0]) && !IsJsSpace(r[|r| - 1])
  {
    match m
    case None => Unknown
    case Some(g) => Cleaned(g)
  }

  /**
   * `getLine`: the first match's group, quotes stripped and trimmed, or
   * `unknown` when nothing matches. The value is one line with no
   * surrounding whitespace.
   */
  function GetLine(text: string, key: string, indented: bool): (r: string)
    ensures OneLine(r)
    ensures r != [] ==> !IsJsSpace(r[0]) && !IsJsSpace(r[|r| - 1])
  {
    Finish(Find(text, key, indented))
  }

  /** What the card shows about the snapshot. */
  datatype Meta = Meta(generatedAt: string, tag: string)

  /**
   * `parseFromYaml`: `generated_at` only at the very start of a line, `tag`
   * and `branch` after any indentation, and `branch` standing in when the tag
   * came out as `unknown`.
   */
  function ParseFromYaml(text: string): (m: Meta)
    ensures OneLine(m.generatedAt) && OneLine(m.tag)
    ensures m.generatedAt == GetLine(text, "generated_at", false)
    ensures m.tag == Unknown <==> GetLine(text, "tag", true) == Unknown && GetLine(text, "branch", true) == Unknown
    ensures m.tag == GetLine(text, "tag", true) || m.tag == GetLine(text, "branch", true)
  {
    var generatedAt := GetLine(text, "generated_at", false);
    var tag := GetLine(text, "tag", true);
    Meta(generatedAt, if tag == Unknown then GetLine(text, "branch", true) else tag)
  }

  /** Only the first matching line counts: a later line with the same key is ignored. */
  lemma FirstMatchWins(text: string, key: string, indented: bool, p: nat, g: string)
    requires p <= |text| && MatchAt(text, p, key, indented) == Some(g)
    requires forall q :: 0 <= q < p ==> MatchAt(text, q, key, indented).None?
    ensures Find(text, key, indented) == Some(g)
    ensures GetLine(text, key, indented) == Cleaned(g)
  {
    var r := Find(text, key, indented);
    assert MatchAt(text, p, key, indented).Some?;
    assert r.Some?;
    var q :| 0 <= q <= |text| && MatchAt(text, q, key, indented) == r
      && forall q' :: 0 <= q' < q ==> MatchAt(text, q', key, indented).None?;
    assert q == p;
  }

  /**
   * A value other than `unknown` comes from a line that starts, after any
   * indentation the pattern allows, with the key and a colon.
   */
  lemma GetLineFromKeyLine(text: string, key: string, indented: bool)
    requires GetLine(text, key, indented) != Unknown
    ensures exists p :: (
      && 0 <= p <= |text| && LineStart(text, p)
      && key + ":" <= text[if indented then SkipSpace(text, p) else p..])
  {
    var m := Find(text, key, indented);
    var q :| 0 <= q <= |text| && MatchAt(text, q, key, indented) == m;
  }

  /**
   * A generation time other than `unknown` comes from a line that starts with
   * `generated_at:` in its very first column.
   */
  lemma GeneratedAtAtLineStart(text: string)
    requires ParseFromYaml(text).generatedAt != Unknown
    ensures exists p :: 0 <= p <= |text| && LineStart(text, p) && "generated_at:" <= text[p..]
  {
    GetLineFromKeyLine(text, "generated_at", false);
  }

  /** Without any `tag:` line the branch is shown in its place. */
  lemma TagFallsBackToBranch(text: string)
    requires forall p :: 0 <= p <= |text| ==> MatchAt(text, p, "tag", true).None?
    ensures ParseFromYaml(text).tag == GetLine(text, "branch", true)
  {
  }

  /**
   * A first `tag:` line whose value cleans to `unknown` (say `tag: "unknown"`)
   * is treated like no tag at all: the branch stands in.
   */
  lemma TagUnknownFallsBack(text: string, p: nat, g: string)
    requires p <= |text| && MatchAt(text, p, "tag", true) == Some(g)
    requires forall q :: 0 <= q < p ==> MatchAt(text, q, "tag", true).None?
    requires Cleaned(g) == Unknown
    ensures ParseFromYaml(text).tag == GetLine(text, "branch", true)
  {
    FirstMatchWins(text, "tag", true, p, g);
  }

  /** Both the quoted and the bare spelling of `unknown` clean to `unknown`. */
  lemma UnknownSpellings()
    ensures Cleaned("\"unknown\"") == Unknown
    ensures Cleaned("unknown") == Unknown
  {
    var quoted := "\"unknown\"";
    assert StripQuotes(quoted) == Unknown;
    assert StripQuotes(Unknown) == Unknown;
    TrimNoSpace(Unknown);
  }

  /** A `tag:` line whose value is not `unknown` wins over every branch line. */
  lemma TagLineWins(text: string, p: nat, g: string)
    requires p <= |text| && MatchAt(text, p, "tag", true) == Some(g)
    requires forall q :: 0 <= q < p ==> MatchAt(text, q, "tag", true).None?
    requires Cleaned(g) != Unknown
    ensures ParseFromYaml(text).tag == Cleaned(g)
  {
    FirstMatchWins(text, "tag", true, p, g);
  }

  /**
   * When the text opens with a line `first` that cannot match and then the
   * line `key: v`, the search for `key` in the first column yields `v`.
   */
  lemma SecondLineMatch(text: string, first: string, key: string, v: string)
    requires first + "\n" + key + ": " + v + "\n" <= text
    requires OneLine(first) && first != [] && key != [] && first[0] != key[0]
    requires OneLine(v) && v != [] && !IsJsSpace(v[0])
    ensures GetLine(text, key, false) == Cleaned(v)
  {
    var head := first + "\n" + key + ": " + v + "\n";
    var p := |first| + 1;
    var c := p + |key| + 2;
    assert text[..|head|] == head;
    assert text[|first|] == '\n';
    assert text[p..p + |key| + 1] == key + ":";
    assert text[c - 1] == ' ';
    assert text[c..c + |v|] == v;
    assert text[c + |v|] == '\n';
    assert SkipSpace(text, c - 1) == c by {
      assert text[c] == v[0];
    }
    assert LineEnd(text, c) == c + |v|;
    assert Capture(text, c - 1) == Some(v) by {
      assert text[c] == v[0];
    }
    assert MatchAt(text, p, key, false) == Some(v);
    forall q | 0 <= q < p ensures MatchAt(text, q, key, false).None? {
      if q == 0 {
        assert text[0] == first[0];
      } else {
        assert text[q - 1] == first[q - 1];
      }
    }
    FirstMatchWins(text, key, false, p, v);
  }

  /** A text without whitespace is its own trim. */
  lemma TrimNoSpace(s: string)
    requires forall i :: 0 <= i < |s| ==> !IsJsSpace(s[i])
    ensures JsTrim(s) == s
  {
  }

  /** A stamp the generator writes without escapes and the card reads without trimming. */
  predicate PlainStamp(now: string) {
    forall i :: 0 <= i < |now| ==> '!' <= now[i] <= '~' && now[i] != '"' && now[i] != '\\'
  }

  lemma QuotedStampOneLine(now: string)
    requires PlainStamp(now)
    ensures OneLine("\"" + now + "\"")
  {
    var v := "\"" + now + "\"";
    forall i | 0 <= i < |v| ensures !IsLineTerminator(v[i]) {
      if 0 < i < |v| - 1 {
        assert v[i] == now[i - 1];
      }
    }
  }

  const VersionText: string := "stp_version: \"1\""

  lemma VersionTextShape()
    ensures OneLine(VersionText) && VersionText != [] && VersionText[0] == 's'
  {
  }

  /** The snapshot's first two lines, spelt out for a plain stamp. */
  lemma HeadText(now: string)
    requires PlainStamp(now)
    ensures StpMake.HeadLines(now) == VersionText + "\n" + "generated_at" + ": " + ("\"" + now + "\"") + "\n"
  {
    StpMake.VersionLine();
    StpMake.TimeLine(now);
    StpMake.EscapePlain(now);
  }

  /** A text that opens with the snapshot's first two lines yields their stamp for `generated_at`. */
  lemma HeadTimeLine(text: string, now: string)
    requires PlainStamp(now) && StpMake.HeadLines(now) <= text
    ensures GetLine(text, "generated_at", false) == now
  {
    var v := "\"" + now + "\"";
    HeadText(now);
    QuotedStampOneLine(now);
    VersionTextShape();
    SecondLineMatch(text, VersionText, "generated_at", v);
    CleanedQuoted(now);
  }

  /** `getLine`'s clean-up undoes the quoting of a plain stamp. */
  lemma CleanedQuoted(now: string)
    requires PlainStamp(now)
    ensures Cleaned("\"" + now + "\"") == now
  {
    var g := "\"" + now + "\"";
    StripQuotesOfQuoted(now);
    assert StripQuotes(g) == now;
    forall i | 0 <= i < |now| ensures !IsJsSpace(now[i]) {
      assert '!' <= now[i] <= '~';
    }
    TrimNoSpace(now);
    assert Cleaned(g) == JsTrim(now);
  }

  /** A text that opens with the snapshot's first two lines shows their stamp. */
  lemma ReadsHeadTime(text: string, now: string)
    requires PlainStamp(now) && StpMake.HeadLines(now) <= text
    ensures ParseFromYaml(text).generatedAt == now
  {
    HeadTimeLine(text, now);
  }

  /**
   * The card shows exactly the generation time the snapshot generator wrote,
   * when that stamp is printable ASCII without blanks, quotes or backslashes
   * (an ISO 8601 time is).
   */
  lemma ReadsSnapshotTime(now: string, name: string, root: string, g: StpMake.GitInfo,
                          walk: seq<StpMake.FileEntry>)
    requires PlainStamp(now)
    ensures ParseFromYaml(StpMake.StpYaml(now, name, root, g, walk)).generatedAt == now
  {
    ReadsHeadTime(StpMake.StpYaml(now, name, root, g, walk), now);
  }

  // ---------------------------------------------------------------------------
  // The two requests
  // ---------------------------------------------------------------------------

  /**
   * The health line from the `/healthz` reply: `Err` stands for a failed
   * request or a body that is not JSON, `Ok(d)` for the parsed body.
   */
  function Health(reply: Result<Value>): (r: string)
    ensures r == "ok" <==> reply.Ok? && Truthy(Get(reply.value, "ok"))
    ensures r == "error" <==> reply.Err?
    ensures r in {"ok", "not ok", "error"}
  {
    match reply
    case Err(_) => "error"
    case Ok(d) => if Truthy(Get(d, "ok")) then "ok" else "not ok"
  }

  /** What the card shows about the snapshot once `/stp` answered, or failed to. */
  function SnapshotMeta(reply: Result<string>): (m: Meta)
    ensures reply.Err? ==> m == Meta(Unknown, Unknown)
    ensures reply.Ok? ==> m == ParseFromYaml(reply.value)
  {
    match reply
    case Err(_) => Meta(Unknown, Unknown)
    case Ok(t) => ParseFromYaml(t)
  }
}
