/**
 * The narrative-file updater of `tools/brain_update.py`, over the loaded
 * document held in memory: reading and writing the YAML file, the command
 * line parser and the clock are outside the model (the timestamp is a
 * parameter). Every Python exception the update can raise (`TypeError`,
 * `AttributeError`) is an `Err`.
 */
module BrainUpdate {
  import opened Wrappers
  import opened Strings
  import opened Json
  import Ordering

  // ---------------------------------------------------------------------------
  // Python values
  // ---------------------------------------------------------------------------

  /** Python truthiness of a loaded YAML value. */
  predicate PyTruthy(v: Value) {
    match v
    case Undefined => false
    case Null => false
    case Bool(b) => b
    case Num(n) => n != 0
    case Str(s) => s != ""
    case Arr(items) => items != []
    case Obj(props) => props != []
  }

  /**
   * `load() or {}`, as the dictionary the rest works on. A truthy document
   * that is not a mapping makes the first `ensure` raise.
   */
  function Document(data: Value): (r: Result<seq<Prop>>)
    ensures r.Err? <==> PyTruthy(data) && !data.Obj?
    ensures r.Ok? && data.Obj? ==> r.value == data.props
    ensures r.Ok? && !data.Obj? ==> r.value == []
  {
    if !PyTruthy(data) then Ok([])
    else if data.Obj? then Ok(data.props)
    else Err("TypeError: the document is not a mapping")
  }

  /**
   * `d` has no member `k` or it is `None`. A loaded document holds no
   * `undefined`, so a missing key is exactly one that reads as `Undefined`.
   */
  predicate Unset(d: seq<Prop>, k: string) {
    Lookup(d, k).Undefined? || Lookup(d, k).Null?
  }

  /** `ensure(d, k, v)`: `d[k] = v` when `k` is missing or maps to `None`; otherwise nothing changes. */
  function Ensure(d: seq<Prop>, k: string, v: Value): (r: seq<Prop>)
    ensures !Unset(d, k) ==> r == d
    ensures Unset(d, k) ==> Lookup(r, k) == v
    ensures forall k' :: k' != k ==> Lookup(r, k') == Lookup(d, k')
  {
    if Unset(d, k) then SetProp(d, k, v) else d
  }

  /** A second `ensure` on the same key with a non-`None` first value does nothing. */
  lemma EnsureIdempotent(d: seq<Prop>, k: string, v: Value, w: Value)
    requires !v.Null? && !v.Undefined?
    ensures Ensure(Ensure(d, k, v), k, w) == Ensure(d, k, v)
  {
  }

  /**
   * Python `x in c` for a string `x`: list membership, a dictionary key, or a
   * substring; `None` where Python raises `TypeError` (numbers, booleans, `None`).
   */
  function PyIn(x: string, c: Value): (r: Option<bool>)
    ensures r.None? <==> !(c.Arr? || c.Obj? || c.Str?)
    ensures c.Arr? ==> r == Some(Str(x) in c.items)
    ensures c.Obj? ==> r == Some(x in Keys(c.props))
  {
    match c
    case Arr(items) => Some(Str(x) in items)
    case Obj(props) => Some(x in Keys(props))
    case Str(s) => Some(Contains(s, x))
    case _ => None
  }

  // ---------------------------------------------------------------------------
  // De-duplicating appends (`--dod`, `--next`)
  // ---------------------------------------------------------------------------

  /**
   * `after` is `before` with entries appended for `items`: the old entries
   * stay in front, in order; the entries added are new, distinct, taken from
   * `items` in argument order; and every item ends up in the list.
   */
  predicate AppendedNew(before: seq<Value>, after: seq<Value>, items: seq<string>) {
    && before <= after
    && (forall x :: x in items ==> Str(x) in after)
    && (forall v :: v in after[|before|..] ==> v !in before)
    && Ordering.Distinct(after[|before|..])
    && Ordering.Subsequence(after[|before|..], Strs(items))
  }

  lemma AppendedNothing(xs: seq<Value>)
    ensures AppendedNew(xs, xs, [])
  {
    assert xs[|xs|..] == [];
  }

  /** An item already present adds nothing. */
  lemma AppendedSkip(before: seq<Value>, after: seq<Value>, x: string, rest: seq<string>)
    requires Str(x) in before && AppendedNew(before, after, rest)
    ensures AppendedNew(before, after, [x] + rest)
  {
    var b := Strs([x] + rest);
    assert b[1..] == Strs(rest);
    assert Ordering.Subsequence(after[|before|..], b);
  }

  /** A missing item is appended, then the rest are handled after it. */
  lemma AppendedAdd(before: seq<Value>, after: seq<Value>, x: string, rest: seq<string>)
    requires Str(x) !in before && AppendedNew(before + [Str(x)], after, rest)
    ensures AppendedNew(before, after, [x] + rest)
  {
    var added := after[|before|..];
    var later := after[|before| + 1..];
    assert (before + [Str(x)])[..|before|] == before;
    assert added == [Str(x)] + later;
    assert Str(x) !in later;
    assert Str(x) in before + [Str(x)];
    var b := Strs([x] + rest);
    assert b[1..] == Strs(rest);
    assert added[1..] == later;
    assert Ordering.Subsequence(added, b);
  }

  /**
   * The entries a de-duplicating append adds to `before`: every item that
   * `before` lacks, at its first occurrence in `items`, in argument order.
   */
  function FirstNew(before: seq<Value>, items: seq<string>): seq<Value>
    decreases |items|
  {
    if items == [] then []
    else
      var n := |items| - 1;
      FirstNew(before, items[..n])
        + (if Str(items[n]) in before || items[n] in items[..n] then [] else [Str(items[n])])
  }

  /** Handling the first item: skipped when present, otherwise added and then seen by the rest. */
  lemma {:induction false} FirstNewCons(before: seq<Value>, x: string, rest: seq<string>)
    ensures Str(x) in before ==> FirstNew(before, [x] + rest) == FirstNew(before, rest)
    ensures Str(x) !in before ==> FirstNew(before, [x] + rest) == [Str(x)] + FirstNew(before + [Str(x)], rest)
    decreases |rest|
  {
    var items := [x] + rest;
    if rest == [] {
      assert items[..0] == [];
    } else {
      var n := |rest| - 1;
      var front, y := rest[..n], rest[n];
      FirstNewCons(before, x, front);
      assert items[..|items| - 1] == [x] + front;
      assert items[|items| - 1] == y;
      assert y in [x] + front <==> y == x || y in front;
      assert Str(y) in before + [Str(x)] <==> Str(y) in before || y == x;
    }
  }

  /**
   * Appending the first occurrences of the missing items is a de-duplicating
   * append: the old list stays in front and every item ends up present once.
   */
  lemma {:induction false} FirstNewAppends(before: seq<Value>, items: seq<string>)
    ensures AppendedNew(before, before + FirstNew(before, items), items)
    decreases |items|
  {
    if items == [] {
      AppendedNothing(before);
      assert before + FirstNew(before, items) == before;
    } else {
      var x, rest := items[0], items[1..];
      assert items == [x] + rest;
      if Str(x) in before {
        FirstNewAppends(before, rest);
        FirstNewSkip(before, x, rest);
      } else {
        FirstNewAppends(before + [Str(x)], rest);
        FirstNewAdd(before, x, rest);
      }
    }
  }

  lemma FirstNewSkip(before: seq<Value>, x: string, rest: seq<string>)
    requires Str(x) in before
    requires AppendedNew(before, before + FirstNew(before, rest), rest)
    ensures AppendedNew(before, before + FirstNew(before, [x] + rest), [x] + rest)
  {
    FirstNewCons(before, x, rest);
    AppendedSkip(before, before + FirstNew(before, rest), x, rest);
  }

  lemma FirstNewAdd(before: seq<Value>, x: string, rest: seq<string>)
    requires Str(x) !in before
    requires AppendedNew(before + [Str(x)], (before + [Str(x)]) + FirstNew(before + [Str(x)], rest), rest)
    ensures AppendedNew(before, before + FirstNew(before, [x] + rest), [x] + rest)
  {
    FirstNewAddEq(before, x, rest);
    AppendedAdd(before, (before + [Str(x)]) + FirstNew(before + [Str(x)], rest), x, rest);
  }

  lemma FirstNewAddEq(before: seq<Value>, x: string, rest: seq<string>)
    requires Str(x) !in before
    ensures before + FirstNew(before, [x] + rest) == (before + [Str(x)]) + FirstNew(before + [Str(x)], rest)
  {
    FirstNewCons(before, x, rest);
  }

  /**
   * `for item in items: if item not in c: c.append(item)`. Only a list can be
   * appended to: another container raises at the first item it lacks, and a
   * value `in` cannot test raises at the first item.
   */
  function AppendNew(c: Value, items: seq<string>): (r: Result<Value>)
    ensures items == [] ==> r == Ok(c)
    ensures c.Arr? ==> r == Ok(Arr(c.items + FirstNew(c.items, items)))
    decreases |items|
  {
    if items == [] then
      assert c.Arr? ==> c.items + FirstNew(c.items, items) == c.items;
      Ok(c)
    else
      var x := items[0];
      assert items == [x] + items[1..];
      FirstNewCons(if c.Arr? then c.items else [], x, items[1..]);
      match PyIn(x, c)
      case None => Err("TypeError: argument is not iterable")
      case Some(true) => AppendNew(c, items[1..])
      case Some(false) =>
        if c.Arr? then
          assert FirstNew(c.items, items) == [Str(x)] + FirstNew(c.items + [Str(x)], items[1..]);
          assert c.items + FirstNew(c.items, items) == (c.items + [Str(x)]) + FirstNew(c.items + [Str(x)], items[1..]);
          AppendNew(Arr(c.items + [Str(x)]), items[1..])
        else Err("AttributeError: object has no attribute 'append'")
  }

  // ---------------------------------------------------------------------------
  // Recent commands (`--add-command`, `--max-recent`)
  // ---------------------------------------------------------------------------

  /** The commands kept: those whose strip is non-empty, in argument order. */
  function NonBlank(cmds: seq<string>): (r: seq<string>)
    ensures Ordering.Subsequence(r, cmds)
    ensures forall c :: c in r <==> c in cmds && PyStrip(c) != ""
    ensures forall c :: multiset(r)[c] == if PyStrip(c) != "" then multiset(cmds)[c] else 0
  {
    if cmds == [] then []
    else
      var rest := NonBlank(cmds[1..]);
      assert cmds == [cmds[0]] + cmds[1..];
      assert multiset(cmds) == multiset{cmds[0]} + multiset(cmds[1..]);
      if PyStrip(cmds[0]) != "" then
        assert multiset([cmds[0]] + rest) == multiset{cmds[0]} + multiset(rest);
        [cmds[0]] + rest
      else rest
  }

  /** The position of the first occurrence of `x`. */
  function FirstIndex(xs: seq<Value>, x: Value): (i: nat)
    requires x in xs
    ensures i < |xs| && xs[i] == x && x !in xs[..i]
  {
    if xs[0] == x then 0
    else
      assert xs[1..][..FirstIndex(xs[1..], x)] == xs[1..FirstIndex(xs[1..], x) + 1];
      1 + FirstIndex(xs[1..], x)
  }

  /** `list.remove(x)` behind an `x in list` test: drops the first occurrence, if any. */
  function RemoveFirst(xs: seq<Value>, x: Value): (r: seq<Value>)
    ensures x !in xs ==> r == xs
    ensures x in xs ==> r == xs[..FirstIndex(xs, x)] + xs[FirstIndex(xs, x) + 1..]
  {
    if xs == [] then []
    else
      assert xs == [xs[0]] + xs[1..];
      if xs[0] == x then xs[1..]
      else
        if x in xs then
          RemoveFirstLater(xs, x);
          [xs[0]] + RemoveFirst(xs[1..], x)
        else [xs[0]] + RemoveFirst(xs[1..], x)
  }

  /** Cutting out a later first occurrence commutes with keeping the head. */
  lemma RemoveFirstLater(xs: seq<Value>, x: Value)
    requires x in xs && xs[0] != x
    ensures x in xs[1..] && FirstIndex(xs, x) == FirstIndex(xs[1..], x) + 1
    ensures [xs[0]] + (xs[1..][..FirstIndex(xs[1..], x)] + xs[1..][FirstIndex(xs[1..], x) + 1..])
         == xs[..FirstIndex(xs, x)] + xs[FirstIndex(xs, x) + 1..]
  {
    var j := FirstIndex(xs[1..], x);
    assert xs[..j + 1] == [xs[0]] + xs[1..][..j];
    assert xs[j + 2..] == xs[1..][j + 1..];
  }

  /** The removal keeps every other value and may lose `x` only once. */
  lemma RemoveFirstMembers(xs: seq<Value>, x: Value)
    ensures forall v :: v in RemoveFirst(xs, x) ==> v in xs
    ensures forall v :: v in xs && v != x ==> v in RemoveFirst(xs, x)
  {
    if x in xs {
      var i := FirstIndex(xs, x);
      assert xs == xs[..i] + [x] + xs[i + 1..];
    }
  }

  /** On a list without duplicates the removal takes out the only occurrence and adds none. */
  lemma RemoveFirstDistinct(xs: seq<Value>, x: Value)
    requires Ordering.Distinct(xs)
    ensures Ordering.Distinct(RemoveFirst(xs, x)) && x !in RemoveFirst(xs, x)
  {
    if x in xs {
      var i := FirstIndex(xs, x);
      var r := RemoveFirst(xs, x);
      forall j | 0 <= j < |r| ensures r[j] != x && (j < i ==> r[j] == xs[j]) && (j >= i ==> r[j] == xs[j + 1]) {
      }
    }
  }

  /** One command: move it (or put it) at the front, taking out its first earlier occurrence. */
  function MoveToFront(xs: seq<Value>, c: Value): (r: seq<Value>)
    ensures c !in xs ==> r == [c] + xs
    ensures c in xs ==> r == [c] + xs[..FirstIndex(xs, c)] + xs[FirstIndex(xs, c) + 1..]
  {
    [c] + RemoveFirst(xs, c)
  }

  /** The values of a sequence. */
  function Elems(cs: seq<Value>): set<Value> {
    set v | v in cs
  }

  /**
   * The pushed commands as they end up in front: each value once, at its last
   * push, the most recent first.
   */
  function Latest(cs: seq<Value>): (r: seq<Value>)
    ensures Ordering.Distinct(r)
    ensures forall v :: v in r <==> v in cs
  {
    if cs == [] then []
    else
      var rest := Latest(cs[1..]);
      assert cs == [cs[0]] + cs[1..];
      rest + (if cs[0] in cs[1..] then [] else [cs[0]])
  }

  /** `xs` without the first occurrence of each value in `s`. */
  function Drop(xs: seq<Value>, s: set<Value>): seq<Value>
    decreases |xs|
  {
    if xs == [] then []
    else if xs[0] in s then Drop(xs[1..], s - {xs[0]})
    else [xs[0]] + Drop(xs[1..], s)
  }

  lemma {:induction false} DropNothing(xs: seq<Value>)
    ensures Drop(xs, {}) == xs
    decreases |xs|
  {
    if xs != [] {
      DropNothing(xs[1..]);
      assert xs == [xs[0]] + xs[1..];
    }
  }

  /** Dropping the first `c` by hand and then the rest is dropping all of `s`. */
  lemma {:induction false} DropRemove(xs: seq<Value>, c: Value, s: set<Value>)
    requires c in s
    ensures Drop(RemoveFirst(xs, c), s - {c}) == Drop(xs, s)
    decreases |xs|
  {
    if xs != [] {
      var x, tail := xs[0], xs[1..];
      assert xs == [x] + tail;
      if x != c {
        var r := RemoveFirst(xs, c);
        assert r == [x] + RemoveFirst(tail, c);
        assert r[1..] == RemoveFirst(tail, c);
        if x in s {
          DropRemove(tail, c, s - {x});
          assert s - {x} - {c} == s - {c} - {x};
        } else {
          DropRemove(tail, c, s);
        }
      }
    }
  }

  /**
   * The loop over the kept commands, in argument order: the commands end up
   * in front, most recent first and each once, followed by the old list
   * without the first occurrence of each pushed command.
   */
  function PushAll(xs: seq<Value>, cs: seq<Value>): (r: seq<Value>)
    ensures r == Latest(cs) + Drop(xs, Elems(cs))
    decreases |cs|
  {
    if cs == [] then
      DropNothing(xs);
      assert Elems(cs) == {};
      xs
    else
      var c, rest := cs[0], cs[1..];
      var m := MoveToFront(xs, c);
      assert m == [c] + RemoveFirst(xs, c);
      var r := PushAll(m, rest);
      assert cs == [c] + rest;
      PushStep(xs, c, rest);
      r
  }

  /** One push, then the rest: the shape of `PushAll` carried over one command. */
  lemma PushStep(xs: seq<Value>, c: Value, rest: seq<Value>)
    ensures Latest(rest) + Drop([c] + RemoveFirst(xs, c), Elems(rest)) == Latest([c] + rest) + Drop(xs, Elems([c] + rest))
  {
    var s := Elems(rest);
    var r := RemoveFirst(xs, c);
    ElemsCons(c, rest);
    LatestCons(c, rest);
    DropCons(c, r, s);
    if c in rest {
      PushRepeated(xs, c, s);
    } else {
      PushFresh(xs, c, s, Latest(rest));
    }
  }

  /** A command pushed again later: its earlier push leaves no trace. */
  lemma PushRepeated(xs: seq<Value>, c: Value, s: set<Value>)
    requires c in s
    ensures Drop(RemoveFirst(xs, c), s - {c}) == Drop(xs, s + {c})
  {
    assert s + {c} == s;
    DropRemove(xs, c, s);
  }

  /** A command not pushed again: it stays in front of the old list. */
  lemma PushFresh(xs: seq<Value>, c: Value, s: set<Value>, front: seq<Value>)
    requires c !in s
    ensures front + ([c] + Drop(RemoveFirst(xs, c), s)) == (front + [c]) + Drop(xs, s + {c})
  {
    assert (s + {c}) - {c} == s;
    DropRemove(xs, c, s + {c});
  }

  lemma LatestCons(c: Value, rest: seq<Value>)
    ensures Latest([c] + rest) == Latest(rest) + (if c in rest then [] else [c])
  {
    var cs := [c] + rest;
    assert cs[0] == c && cs[1..] == rest;
  }

  lemma DropCons(c: Value, r: seq<Value>, s: set<Value>)
    ensures Drop([c] + r, s) == if c in s then Drop(r, s - {c}) else [c] + Drop(r, s)
  {
    var m := [c] + r;
    assert m[0] == c && m[1..] == r;
  }

  lemma ElemsCons(c: Value, rest: seq<Value>)
    ensures Elems([c] + rest) == Elems(rest) + {c}
    ensures c in rest <==> c in Elems(rest)
  {
  }

  /** Pushing keeps every old value and adds exactly the commands. */
  lemma PushAllMembers(xs: seq<Value>, cs: seq<Value>)
    ensures forall v :: v in xs || v in cs ==> v in PushAll(xs, cs)
    ensures forall v :: v in PushAll(xs, cs) ==> v in xs || v in cs
  {
    DropMembers(xs, Elems(cs));
  }

  lemma {:induction false} DropMembers(xs: seq<Value>, s: set<Value>)
    ensures forall v :: v in Drop(xs, s) ==> v in xs
    ensures forall v :: v in xs && v !in s ==> v in Drop(xs, s)
    decreases |xs|
  {
    if xs != [] {
      if xs[0] in s {
        DropMembers(xs[1..], s - {xs[0]});
      } else {
        DropMembers(xs[1..], s);
      }
    }
  }

  /** Python's end index for `s[:n]` on a sequence of length `len`. */
  function SliceEnd(len: nat, n: int): (e: nat)
    ensures e <= len
    ensures n >= 0 ==> e <= n && (e == n || e == len)
    ensures n < 0 ==> e == len - (if -n < len then -n else len)
  {
    if n >= 0 then (if n < len then n else len)
    else if len + n > 0 then len + n else 0
  }

  /** `v[:n]`: lists and strings slice; anything else raises `TypeError`. */
  function Slice(v: Value, n: int): (r: Result<Value>)
    ensures r.Ok? <==> v.Arr? || v.Str?
    ensures v.Arr? ==> r.Ok? && r.value.Arr? && r.value.items <= v.items
    ensures v.Str? ==> r.Ok? && r.value.Str? && r.value.s <= v.s
    ensures r.Ok? && n >= 0 ==> KeyCount(r.value) <= n
    ensures v.Arr? && n >= 0 ==> |r.value.items| == if n < |v.items| then n else |v.items|
    ensures v.Arr? && n < 0 ==> |r.value.items| == if |v.items| + n > 0 then |v.items| + n else 0
    ensures v.Str? && n >= 0 ==> |r.value.s| == if n < |v.s| then n else |v.s|
    ensures v.Str? && n < 0 ==> |r.value.s| == if |v.s| + n > 0 then |v.s| + n else 0
  {
    match v
    case Arr(items) => Ok(Arr(items[..SliceEnd(|items|, n)]))
    case Str(s) => Ok(Str(s[..SliceEnd(|s|, n)]))
    case _ => Err("TypeError: object is not subscriptable")
  }

  /**
   * The `--add-command` block on the current `commands_recent` value: push
   * every kept command to the front, then cut to `max_recent`. Only a list
   * accepts a push; with no kept command the value is only sliced.
   */
  function AddCommands(recent: Value, addCommand: seq<string>, maxRecent: int): (r: Result<Value>)
    ensures NonBlank(addCommand) != [] ==> (r.Ok? <==> recent.Arr?)
    ensures recent.Arr? ==> var cs := Strs(NonBlank(addCommand));
      r == Slice(Arr(Latest(cs) + Drop(recent.items, Elems(cs))), maxRecent)
    ensures r.Ok? ==> r.value.Arr? || r.value.Str?
    ensures r.Ok? && maxRecent >= 0 ==> KeyCount(r.value) <= maxRecent
  {
    var kept := NonBlank(addCommand);
    if kept == [] then
      assert recent.Arr? ==> PushAll(recent.items, Strs(kept)) == recent.items;
      Slice(recent, maxRecent)
    else if recent.Arr? then Slice(Arr(PushAll(recent.items, Strs(kept))), maxRecent)
    else Err("AttributeError: object has no attribute 'remove' or 'insert'")
  }

  // ---------------------------------------------------------------------------
  // Troubleshooting entries (`--trouble 'issue|cause|fix1;fix2'`)
  // ---------------------------------------------------------------------------

  datatype Trouble = Trouble(issue: string, cause: string, fix: seq<string>)

  /** `x.strip()` leaves `x` as it is. */
  predicate Stripped(x: string) {
    PyStrip(x) == x
  }

  /** Stripping is idempotent and only removes characters. */
  lemma StripFacts(s: string)
    ensures Stripped(PyStrip(s))
    ensures forall c :: c in PyStrip(s) ==> c in s
  {
    TrimIdempotent(s, IsPySpace);
    TrimSubset(s, IsPySpace);
  }

  /** `[x.strip() for x in parts if x.strip()]`. */
  function Fixes(parts: seq<string>): seq<string> {
    if parts == [] then []
    else
      var x := PyStrip(parts[0]);
      (if x != "" then [x] else []) + Fixes(parts[1..])
  }

  /** A kept fix: non-blank, stripped, and free of `c`. */
  predicate CleanFix(x: string, c: char) {
    x != "" && Stripped(x) && c !in x
  }

  predicate AllClean(xs: seq<string>, c: char) {
    forall i :: 0 <= i < |xs| ==> CleanFix(xs[i], c)
  }

  lemma AllCleanConcat(a: seq<string>, b: seq<string>, c: char)
    requires AllClean(a, c) && AllClean(b, c)
    ensures AllClean(a + b, c)
  {
    forall i | 0 <= i < |a + b| ensures CleanFix((a + b)[i], c) {
      if i >= |a| {
        assert (a + b)[i] == b[i - |a|];
      }
    }
  }

  /** What one part contributes to the fixes is clean. */
  lemma FixHeadClean(p: string, c: char)
    requires c !in p
    ensures AllClean(if PyStrip(p) != "" then [PyStrip(p)] else [], c)
  {
    StripFacts(p);
  }

  /** Every fix kept is stripped and non-blank, and holds no character absent from all parts. */
  lemma {:induction false} FixesClean(parts: seq<string>, c: char)
    requires forall j :: 0 <= j < |parts| ==> c !in parts[j]
    ensures AllClean(Fixes(parts), c)
    decreases |parts|
  {
    if parts != [] {
      var x := PyStrip(parts[0]);
      var head := if x != "" then [x] else [];
      FixHeadClean(parts[0], c);
      FixesClean(parts[1..], c);
      AllCleanConcat(head, Fixes(parts[1..]), c);
    }
  }

  /** The fields of a troubleshooting entry as they can come out of the parser. */
  predicate WellFormedTrouble(t: Trouble) {
    && Stripped(t.issue) && '|' !in t.issue
    && Stripped(t.cause) && '|' !in t.cause
    && forall i :: 0 <= i < |t.fix| ==> t.fix[i] != "" && Stripped(t.fix[i]) && '|' !in t.fix[i] && ';' !in t.fix[i]
  }

  /**
   * Parses `issue|cause|fix1;fix2;...`: the first two parts stripped (a
   * missing cause is ""), the third split on `;` with blanks dropped; any
   * further part is ignored. Whatever the text, the entry is well formed.
   */
  function ParseTrouble(s: string): (t: Trouble)
    ensures WellFormedTrouble(t)
    ensures '|' !in s ==> t == Trouble(PyStrip(s), "", [])
  {
    var parts := Split(s, '|');
    SplitNoSep(s, '|');
    FieldsWellFormed(parts);
    Fields(parts)
  }

  lemma ParseTroubleFields(s: string)
    ensures ParseTrouble(s) == Fields(Split(s, '|'))
  {
  }

  /** The entry made of the `|`-separated parts. */
  function Fields(parts: seq<string>): Trouble
    requires |parts| >= 1
  {
    Trouble(
      PyStrip(parts[0]),
      if |parts| > 1 then PyStrip(parts[1]) else "",
      if |parts| > 2 then Fixes(Split(parts[2], ';')) else [])
  }

  lemma FieldsWellFormed(parts: seq<string>)
    requires |parts| >= 1
    requires forall i :: 0 <= i < |parts| ==> '|' !in parts[i]
    ensures WellFormedTrouble(Fields(parts))
  {
    StripFacts(parts[0]);
    if |parts| > 1 {
      StripFacts(parts[1]);
    }
    if |parts| > 2 {
      var fs := Split(parts[2], ';');
      SplitFree(parts[2], ';', '|');
      FixesClean(fs, '|');
      FixesClean(fs, ';');
    }
  }

  /** A part of a join holds only characters of the join. */
  lemma {:induction false} JoinKeepsOut(parts: seq<string>, sep: string, c: char, i: nat)
    requires i < |parts|
    requires c !in Join(parts, sep)
    ensures c !in parts[i]
    decreases |parts|
  {
    if |parts| > 1 {
      assert Join(parts, sep) == parts[0] + sep + Join(parts[1..], sep);
      if i > 0 {
        JoinKeepsOut(parts[1..], sep, c, i - 1);
      }
    }
  }

  /** The parts of a split hold no character the text lacks. */
  lemma SplitFree(s: string, sep: char, c: char)
    requires c !in s
    ensures forall i :: 0 <= i < |Split(s, sep)| ==> c !in Split(s, sep)[i]
  {
    var parts := Split(s, sep);
    forall i | 0 <= i < |parts| ensures c !in parts[i] {
      JoinKeepsOut(parts, [sep], c, i);
    }
  }

  /** A join of parts and separator free of `c` is free of `c`. */
  lemma {:induction false} JoinFree(parts: seq<string>, sep: string, c: char)
    requires forall i :: 0 <= i < |parts| ==> c !in parts[i]
    requires c !in sep
    ensures c !in Join(parts, sep)
    decreases |parts|
  {
    if |parts| > 1 {
      JoinFree(parts[1..], sep, c);
    }
  }

  /** The text `--trouble` expects for an entry. */
  function RenderTrouble(t: Trouble): string {
    t.issue + "|" + t.cause + "|" + Join(t.fix, ";")
  }

  /** The two-part form `issue|cause` sets the stripped issue and cause and no fixes. */
  lemma TroubleTwoParts(a: string, b: string)
    requires '|' !in a && '|' !in b
    ensures ParseTrouble(a + "|" + b) == Trouble(PyStrip(a), PyStrip(b), [])
  {
    assert a + "|" + b == a + ['|'] + b;
    SplitCons(a, '|', b);
    SplitNoSep(b, '|');
    ParseTroubleFields(a + "|" + b);
  }

  /** Only the third part holds the fixes: whatever follows a third `|` is ignored. */
  lemma TroubleExtraPartsIgnored(a: string, b: string, c: string, rest: string)
    requires '|' !in a && '|' !in b && '|' !in c
    requires rest == "" || rest[0] == '|'
    ensures ParseTrouble(a + "|" + b + "|" + c + rest) == Trouble(PyStrip(a), PyStrip(b), Fixes(Split(c, ';')))
  {
    var s := a + "|" + b + "|" + c + rest;
    SplitThree(a, b, c, rest);
    ParseTroubleFields(s);
  }

  /** Splitting `a|b|c` followed by nothing or by a further `|` part starts with `a`, `b`, `c`. */
  lemma SplitThree(a: string, b: string, c: string, rest: string)
    requires '|' !in a && '|' !in b && '|' !in c
    requires rest == "" || rest[0] == '|'
    ensures var parts := Split(a + "|" + b + "|" + c + rest, '|');
      |parts| >= 3 && parts[0] == a && parts[1] == b && parts[2] == c
  {
    var tail := c + rest;
    var mid := b + ['|'] + tail;
    assert a + "|" + b + "|" + c + rest == a + ['|'] + mid;
    SplitCons(a, '|', mid);
    SplitCons(b, '|', tail);
    SplitHead(c, rest);
  }

  lemma SplitHead(c: string, rest: string)
    requires '|' !in c
    requires rest == "" || rest[0] == '|'
    ensures Split(c + rest, '|')[0] == c
  {
    if rest == "" {
      assert c + rest == c;
      assert IndexOf(c, '|') == -1;
    } else {
      var more := rest[1..];
      assert rest == ['|'] + more;
      assert c + rest == c + ['|'] + more;
      SplitCons(c, '|', more);
    }
  }

  /** Rendering a well-formed entry and parsing it back gives the entry. */
  lemma TroubleRoundTrip(t: Trouble)
    requires WellFormedTrouble(t)
    ensures ParseTrouble(RenderTrouble(t)) == t
  {
    RenderSplits(t);
    ParseTroubleFields(RenderTrouble(t));
    FixesRoundTrip(t.fix);
  }

  /** The rendered entry splits on `|` into its three fields. */
  lemma RenderSplits(t: Trouble)
    requires WellFormedTrouble(t)
    ensures Split(RenderTrouble(t), '|') == [t.issue, t.cause, Join(t.fix, ";")]
  {
    var fixText := Join(t.fix, ";");
    JoinFree(t.fix, ";", '|');
    JoinThree(t.issue, t.cause, fixText);
    SplitJoin([t.issue, t.cause, fixText], '|');
  }

  lemma JoinThree(a: string, b: string, c: string)
    ensures Join([a, b, c], "|") == a + "|" + b + "|" + c
  {
    assert [a, b, c][1..] == [b, c];
    assert [b, c][1..] == [c];
    assert Join([c], "|") == c;
    assert Join([b, c], "|") == b + "|" + c;
  }

  /** The joined fixes split on `;` and cleaned give the fixes back. */
  lemma FixesRoundTrip(fix: seq<string>)
    requires forall i :: 0 <= i < |fix| ==> fix[i] != "" && Stripped(fix[i]) && ';' !in fix[i]
    ensures Fixes(Split(Join(fix, ";"), ';')) == fix
  {
    if fix == [] {
      assert Split("", ';') == [""];
      assert Fixes([""]) == [];
    } else {
      SplitJoin(fix, ';');
      FixesOfClean(fix);
    }
  }

  lemma {:induction false} FixesOfClean(fs: seq<string>)
    requires forall i :: 0 <= i < |fs| ==> fs[i] != "" && Stripped(fs[i])
    ensures Fixes(fs) == fs
    decreases |fs|
  {
    if fs != [] {
      FixesOfClean(fs[1..]);
      assert fs == [fs[0]] + fs[1..];
    }
  }

  /** The entry put at the front of `troubleshooting`. */
  function TroubleEntry(stamp: string, t: Trouble): Value {
    Obj([
      Prop("date_utc", Str(stamp)),
      Prop("issue", Str(t.issue)),
      Prop("cause", Str(t.cause)),
      Prop("fix", Arr(Strs(t.fix)))])
  }

  // ---------------------------------------------------------------------------
  // One run
  // ---------------------------------------------------------------------------

  /**
   * The flags of one run. An empty `step` or `trouble` stands for the flag
   * being absent (argparse's `None` and `""` are both falsy).
   */
  datatype Args = Args(
    step: string,
    dod: seq<string>,
    next: seq<string>,
    addCommand: seq<string>,
    trouble: string,
    maxRecent: int)

  /** The three keys every run guarantees. */
  function Base(d: seq<Prop>): (r: seq<Prop>)
    ensures forall k :: k != "current_step" && k != "commands_recent" && k != "troubleshooting" ==>
      Lookup(r, k) == Lookup(d, k)
    ensures !Unset(r, "current_step") && !Unset(r, "commands_recent") && !Unset(r, "troubleshooting")
  {
    Ensure(Ensure(Ensure(d, "current_step", Obj([])), "commands_recent", Arr([])), "troubleshooting", Arr([]))
  }

  /** Writes `d[k] = v`: no other key changes. */
  function Write(d: seq<Prop>, k: string, v: Value): (r: seq<Prop>)
    ensures Lookup(r, k) == v
    ensures forall k' :: k' != k ==> Lookup(r, k') == Lookup(d, k')
  {
    SetProp(d, k, v)
  }

  /** `--step`: names the current step, which must be a mapping. */
  function SetStep(d: seq<Prop>, step: string): (r: Result<seq<Prop>>)
    ensures step == "" ==> r == Ok(d)
    ensures step != "" ==> (r.Ok? <==> Lookup(d, "current_step").Obj?)
    ensures r.Ok? && step != "" ==>
      && Get(Lookup(r.value, "current_step"), "name") == Str(step)
      && forall k :: k != "name" ==> Get(Lookup(r.value, "current_step"), k) == Get(Lookup(d, "current_step"), k)
    ensures r.Ok? ==> forall k :: k != "current_step" ==> Lookup(r.value, k) == Lookup(d, k)
  {
    if step == "" then Ok(d)
    else
      var cs := Lookup(d, "current_step");
      if cs.Obj? then Ok(Write(d, "current_step", Obj(SetProp(cs.props, "name", Str(step)))))
      else Err("TypeError: current_step does not support item assignment")
  }

  /** The list a de-duplicating append starts from: the list itself, or `[]` for a slot `ensure` fills. */
  function ListBefore(v: Value): seq<Value> {
    if v.Arr? then v.items else []
  }

  /**
   * `--dod`: de-duplicating appends to `current_step.definition_of_done`,
   * created when missing; the step's other members stay as they were.
   */
  function AddDod(d: seq<Prop>, dod: seq<string>): (r: Result<seq<Prop>>)
    ensures dod == [] ==> r == Ok(d)
    ensures dod != [] && !Lookup(d, "current_step").Obj? ==> r.Err?
    ensures r.Ok? ==> forall k :: k != "current_step" ==> Lookup(r.value, k) == Lookup(d, k)
    ensures r.Ok? && dod != [] ==>
      && Lookup(r.value, "current_step").Obj?
      && forall k :: k != "definition_of_done" ==>
           Get(Lookup(r.value, "current_step"), k) == Get(Lookup(d, "current_step"), k)
    ensures dod != [] && Lookup(d, "current_step").Obj? && ListSlot(Lookup(d, "current_step").props, "definition_of_done") ==>
      var before := ListBefore(Get(Lookup(d, "current_step"), "definition_of_done"));
      r.Ok? && Get(Lookup(r.value, "current_step"), "definition_of_done") == Arr(before + FirstNew(before, dod))
  {
    if dod == [] then Ok(d)
    else
      var cs := Lookup(d, "current_step");
      if !cs.Obj? then Err("TypeError: current_step is not a mapping")
      else
        var cs' := Ensure(cs.props, "definition_of_done", Arr([]));
        match AppendNew(Lookup(cs', "definition_of_done"), dod)
        case Err(e) => Err(e)
        case Ok(v) => Ok(Write(d, "current_step", Obj(SetProp(cs', "definition_of_done", v))))
  }

  /** `--next`: de-duplicating appends to `next_steps`, created when missing. */
  function AddNext(d: seq<Prop>, next: seq<string>): (r: Result<seq<Prop>>)
    ensures next == [] ==> r == Ok(d)
    ensures r.Ok? ==> forall k :: k != "next_steps" ==> Lookup(r.value, k) == Lookup(d, k)
    ensures next != [] && ListSlot(d, "next_steps") ==>
      var before := ListBefore(Lookup(d, "next_steps"));
      r.Ok? && Lookup(r.value, "next_steps") == Arr(before + FirstNew(before, next))
  {
    if next == [] then Ok(d)
    else
      var d' := Ensure(d, "next_steps", Arr([]));
      match AppendNew(Lookup(d', "next_steps"), next)
      case Err(e) => Err(e)
      case Ok(v) => Ok(Write(d', "next_steps", v))
  }

  /** `--add-command` with `--max-recent`. */
  function AddCmds(d: seq<Prop>, addCommand: seq<string>, maxRecent: int): (r: Result<seq<Prop>>)
    ensures addCommand == [] ==> r == Ok(d)
    ensures addCommand != [] ==> match AddCommands(Lookup(d, "commands_recent"), addCommand, maxRecent)
      case Ok(v) => r.Ok? && Lookup(r.value, "commands_recent") == v
      case Err(_) => r.Err?
    ensures r.Ok? ==> forall k :: k != "commands_recent" ==> Lookup(r.value, k) == Lookup(d, k)
  {
    if addCommand == [] then Ok(d)
    else
      match AddCommands(Lookup(d, "commands_recent"), addCommand, maxRecent)
      case Err(e) => Err(e)
      case Ok(v) => Ok(Write(d, "commands_recent", v))
  }

  /** `--trouble`: the parsed entry goes in front of the existing ones. */
  function AddTrouble(d: seq<Prop>, trouble: string, stamp: string): (r: Result<seq<Prop>>)
    ensures trouble == "" ==> r == Ok(d)
    ensures trouble != "" ==> (r.Ok? <==> Lookup(d, "troubleshooting").Arr?)
    ensures r.Ok? && trouble != "" ==>
      Lookup(r.value, "troubleshooting").Arr? &&
      Lookup(r.value, "troubleshooting").items
        == [TroubleEntry(stamp, ParseTrouble(trouble))] + Lookup(d, "troubleshooting").items
    ensures r.Ok? ==> forall k :: k != "troubleshooting" ==> Lookup(r.value, k) == Lookup(d, k)
  {
    if trouble == "" then Ok(d)
    else
      var t := Lookup(d, "troubleshooting");
      if t.Arr? then Ok(Write(d, "troubleshooting", Arr([TroubleEntry(stamp, ParseTrouble(trouble))] + t.items)))
      else Err("AttributeError: object has no attribute 'insert'")
  }

  /** The flags in the order `main` applies them, after the three guaranteed keys. */
  function Run(d: seq<Prop>, args: Args, stamp: string): Result<seq<Prop>> {
    match SetStep(Base(d), args.step)
    case Err(e) => Err(e)
    case Ok(d1) =>
      match AddDod(d1, args.dod)
      case Err(e) => Err(e)
      case Ok(d2) =>
        match AddNext(d2, args.next)
        case Err(e) => Err(e)
        case Ok(d3) =>
          match AddCmds(d3, args.addCommand, args.maxRecent)
          case Err(e) => Err(e)
          case Ok(d4) => AddTrouble(d4, args.trouble, stamp)
  }

  /** One run of the updater on the loaded document; the result is the mapping it saves. */
  function Update(data: Value, args: Args, stamp: string): (r: Result<Value>)
    ensures r.Ok? ==> r.value.Obj?
  {
    match Document(data)
    case Err(e) => Err(e)
    case Ok(d) =>
      match Run(d, args, stamp)
      case Err(e) => Err(e)
      case Ok(d') => Ok(Obj(d'))
  }

  // ---------------------------------------------------------------------------
  // Properties of a run
  // ---------------------------------------------------------------------------

  /** The keys a run can write. */
  predicate Touched(k: string) {
    k == "current_step" || k == "commands_recent" || k == "troubleshooting" || k == "next_steps"
  }

  /** The three guaranteed keys are present and not `None`. */
  predicate HasBaseKeys(d: seq<Prop>) {
    !Unset(d, "current_step") && !Unset(d, "commands_recent") && !Unset(d, "troubleshooting")
  }

  lemma SetStepKeepsBaseKeys(d: seq<Prop>, step: string)
    requires HasBaseKeys(d) && SetStep(d, step).Ok?
    ensures HasBaseKeys(SetStep(d, step).value)
  {
  }

  lemma AddDodKeepsBaseKeys(d: seq<Prop>, dod: seq<string>)
    requires HasBaseKeys(d) && AddDod(d, dod).Ok?
    ensures HasBaseKeys(AddDod(d, dod).value)
  {
  }

  lemma AddNextKeepsBaseKeys(d: seq<Prop>, next: seq<string>)
    requires HasBaseKeys(d) && AddNext(d, next).Ok?
    ensures HasBaseKeys(AddNext(d, next).value)
  {
  }

  lemma AddCmdsKeepsBaseKeys(d: seq<Prop>, addCommand: seq<string>, maxRecent: int)
    requires HasBaseKeys(d) && AddCmds(d, addCommand, maxRecent).Ok?
    ensures HasBaseKeys(AddCmds(d, addCommand, maxRecent).value)
  {
  }

  lemma AddTroubleKeepsBaseKeys(d: seq<Prop>, trouble: string, stamp: string)
    requires HasBaseKeys(d) && AddTrouble(d, trouble, stamp).Ok?
    ensures HasBaseKeys(AddTrouble(d, trouble, stamp).value)
  {
    var r := AddTrouble(d, trouble, stamp).value;
    assert Lookup(r, "current_step") == Lookup(d, "current_step");
    assert Lookup(r, "commands_recent") == Lookup(d, "commands_recent");
    if trouble != "" {
      assert Lookup(r, "troubleshooting").Arr?;
    }
  }

  lemma RunKeepsBaseKeys(d: seq<Prop>, args: Args, stamp: string)
    requires Run(d, args, stamp).Ok?
    ensures HasBaseKeys(Run(d, args, stamp).value)
  {
    var d0 := Base(d);
    SetStepKeepsBaseKeys(d0, args.step);
    var d1 := SetStep(d0, args.step).value;
    AddDodKeepsBaseKeys(d1, args.dod);
    var d2 := AddDod(d1, args.dod).value;
    AddNextKeepsBaseKeys(d2, args.next);
    var d3 := AddNext(d2, args.next).value;
    AddCmdsKeepsBaseKeys(d3, args.addCommand, args.maxRecent);
    var d4 := AddCmds(d3, args.addCommand, args.maxRecent).value;
    AddTroubleKeepsBaseKeys(d4, args.trouble, stamp);
  }

  /** After a successful run `current_step`, `commands_recent` and `troubleshooting` exist and are not `None`. */
  lemma UpdateKeepsBaseKeys(data: Value, args: Args, stamp: string)
    requires Update(data, args, stamp).Ok?
    ensures HasBaseKeys(Update(data, args, stamp).value.props)
  {
    RunKeepsBaseKeys(Document(data).value, args, stamp);
  }

  /** The intermediate documents of a run, one per flag, in the order `main` applies them. */
  datatype Stages = Stages(d0: seq<Prop>, d1: seq<Prop>, d2: seq<Prop>, d3: seq<Prop>, d4: seq<Prop>, d5: seq<Prop>)

  function StagesOf(d: seq<Prop>, args: Args, stamp: string): (st: Stages)
    requires Run(d, args, stamp).Ok?
    ensures st.d0 == Base(d)
    ensures SetStep(st.d0, args.step) == Ok(st.d1)
    ensures AddDod(st.d1, args.dod) == Ok(st.d2)
    ensures AddNext(st.d2, args.next) == Ok(st.d3)
    ensures AddCmds(st.d3, args.addCommand, args.maxRecent) == Ok(st.d4)
    ensures AddTrouble(st.d4, args.trouble, stamp) == Ok(st.d5)
    ensures Run(d, args, stamp) == Ok(st.d5)
  {
    var d0 := Base(d);
    var d1 := SetStep(d0, args.step).value;
    var d2 := AddDod(d1, args.dod).value;
    var d3 := AddNext(d2, args.next).value;
    var d4 := AddCmds(d3, args.addCommand, args.maxRecent).value;
    Stages(d0, d1, d2, d3, d4, AddTrouble(d4, args.trouble, stamp).value)
  }

  lemma {:induction false} RunOtherKeys(d: seq<Prop>, args: Args, stamp: string)
    requires Run(d, args, stamp).Ok?
    ensures forall k :: !Touched(k) ==> Lookup(Run(d, args, stamp).value, k) == Lookup(d, k)
  {
    var st := StagesOf(d, args, stamp);
    forall k | !Touched(k)
      ensures Lookup(st.d5, k) == Lookup(d, k)
    {
      TroubleKeepsOthers(st.d4, st.d5, args.trouble, stamp, k);
      CmdsKeepsOthers(st.d3, st.d4, args.addCommand, args.maxRecent, k);
      NextKeepsOthers(st.d2, st.d3, args.next, k);
      DodKeepsOthers(st.d1, st.d2, args.dod, k);
      StepKeepsOthers(st.d0, st.d1, args.step, k);
      BaseKeepsOthers(d, k);
    }
  }

  lemma NextKeepsOthers(d2: seq<Prop>, d3: seq<Prop>, next: seq<string>, k: string)
    requires AddNext(d2, next) == Ok(d3) && k != "next_steps"
    ensures Lookup(d3, k) == Lookup(d2, k)
  {
    if next != [] {
      var d' := Ensure(d2, "next_steps", Arr([]));
      var v := AppendNew(Lookup(d', "next_steps"), next).value;
      assert d3 == Write(d', "next_steps", v);
    }
  }

  lemma CmdsKeepsOthers(d3: seq<Prop>, d4: seq<Prop>, addCommand: seq<string>, maxRecent: int, k: string)
    requires AddCmds(d3, addCommand, maxRecent) == Ok(d4) && k != "commands_recent"
    ensures Lookup(d4, k) == Lookup(d3, k)
  {
  }

  lemma TroubleKeepsOthers(d4: seq<Prop>, d5: seq<Prop>, trouble: string, stamp: string, k: string)
    requires AddTrouble(d4, trouble, stamp) == Ok(d5) && k != "troubleshooting"
    ensures Lookup(d5, k) == Lookup(d4, k)
  {
  }

  lemma BaseKeepsOthers(d: seq<Prop>, k: string)
    requires k != "current_step" && k != "commands_recent" && k != "troubleshooting"
    ensures Lookup(Base(d), k) == Lookup(d, k)
  {
  }

  lemma StepKeepsOthers(d0: seq<Prop>, d1: seq<Prop>, step: string, k: string)
    requires SetStep(d0, step) == Ok(d1) && k != "current_step"
    ensures Lookup(d1, k) == Lookup(d0, k)
  {
  }

  lemma DodKeepsOthers(d1: seq<Prop>, d2: seq<Prop>, dod: seq<string>, k: string)
    requires AddDod(d1, dod) == Ok(d2) && k != "current_step"
    ensures Lookup(d2, k) == Lookup(d1, k)
  {
  }

  lemma {:induction false} RunWithoutNext(d: seq<Prop>, args: Args, stamp: string)
    requires Run(d, args, stamp).Ok? && args.next == []
    ensures Lookup(Run(d, args, stamp).value, "next_steps") == Lookup(d, "next_steps")
  {
    var st := StagesOf(d, args, stamp);
    TroubleKeepsOthers(st.d4, st.d5, args.trouble, stamp, "next_steps");
    CmdsKeepsOthers(st.d3, st.d4, args.addCommand, args.maxRecent, "next_steps");
    assert st.d3 == st.d2;
    DodKeepsOthers(st.d1, st.d2, args.dod, "next_steps");
    StepKeepsOthers(st.d0, st.d1, args.step, "next_steps");
    BaseKeepsOthers(d, "next_steps");
  }

  lemma {:induction false} RunWithoutCommands(d: seq<Prop>, args: Args, stamp: string)
    requires Run(d, args, stamp).Ok? && args.addCommand == []
    ensures Lookup(Run(d, args, stamp).value, "commands_recent") == Lookup(Base(d), "commands_recent")
  {
    var st := StagesOf(d, args, stamp);
    TroubleKeepsOthers(st.d4, st.d5, args.trouble, stamp, "commands_recent");
    assert st.d4 == st.d3;
    NextKeepsOthers(st.d2, st.d3, args.next, "commands_recent");
    DodKeepsOthers(st.d1, st.d2, args.dod, "commands_recent");
    StepKeepsOthers(st.d0, st.d1, args.step, "commands_recent");
  }

  lemma {:induction false} RunWithoutTrouble(d: seq<Prop>, args: Args, stamp: string)
    requires Run(d, args, stamp).Ok? && args.trouble == ""
    ensures Lookup(Run(d, args, stamp).value, "troubleshooting") == Lookup(Base(d), "troubleshooting")
  {
    var st := StagesOf(d, args, stamp);
    assert st.d5 == st.d4;
    CmdsKeepsOthers(st.d3, st.d4, args.addCommand, args.maxRecent, "troubleshooting");
    NextKeepsOthers(st.d2, st.d3, args.next, "troubleshooting");
    DodKeepsOthers(st.d1, st.d2, args.dod, "troubleshooting");
    StepKeepsOthers(st.d0, st.d1, args.step, "troubleshooting");
  }

  lemma {:induction false} RunWithoutStep(d: seq<Prop>, args: Args, stamp: string)
    requires Run(d, args, stamp).Ok? && args.step == "" && args.dod == []
    ensures Lookup(Run(d, args, stamp).value, "current_step") == Lookup(Base(d), "current_step")
  {
    var st := StagesOf(d, args, stamp);
    TroubleKeepsOthers(st.d4, st.d5, args.trouble, stamp, "current_step");
    CmdsKeepsOthers(st.d3, st.d4, args.addCommand, args.maxRecent, "current_step");
    NextKeepsOthers(st.d2, st.d3, args.next, "current_step");
    assert st.d2 == st.d1 == st.d0;
  }

  /**
   * A run changes nothing but the keys its flags name: every other key reads
   * as before, `next_steps` only moves under `--next`, `commands_recent` only
   * under `--add-command`, `troubleshooting` only under `--trouble` and
   * `current_step` only under `--step` or `--dod` (beyond the guaranteed defaults).
   */
  lemma UpdateUntouched(data: Value, args: Args, stamp: string)
    requires Update(data, args, stamp).Ok?
    ensures var d := Document(data).value; var r := Update(data, args, stamp).value;
      && (forall k :: !Touched(k) ==> Get(r, k) == Lookup(d, k))
      && (args.next == [] ==> Get(r, "next_steps") == Lookup(d, "next_steps"))
      && (args.addCommand == [] ==> Get(r, "commands_recent") == Lookup(Base(d), "commands_recent"))
      && (args.trouble == "" ==> Get(r, "troubleshooting") == Lookup(Base(d), "troubleshooting"))
      && (args.step == "" && args.dod == [] ==> Get(r, "current_step") == Lookup(Base(d), "current_step"))
  {
    var d := Document(data).value;
    RunOtherKeys(d, args, stamp);
    if args.next == [] { RunWithoutNext(d, args, stamp); }
    if args.addCommand == [] { RunWithoutCommands(d, args, stamp); }
    if args.trouble == "" { RunWithoutTrouble(d, args, stamp); }
    if args.step == "" && args.dod == [] { RunWithoutStep(d, args, stamp); }
  }

  lemma {:induction false} RunCommandsBound(d: seq<Prop>, args: Args, stamp: string)
    requires Run(d, args, stamp).Ok?
    requires args.addCommand != [] && args.maxRecent >= 0
    ensures KeyCount(Lookup(Run(d, args, stamp).value, "commands_recent")) <= args.maxRecent
  {
    var st := StagesOf(d, args, stamp);
    TroubleKeepsOthers(st.d4, st.d5, args.trouble, stamp, "commands_recent");
  }

  /** With at least one `--add-command` and `max_recent >= 0`, at most `max_recent` commands remain. */
  lemma UpdateCommandsBound(data: Value, args: Args, stamp: string)
    requires Update(data, args, stamp).Ok?
    requires args.addCommand != [] && args.maxRecent >= 0
    ensures KeyCount(Get(Update(data, args, stamp).value, "commands_recent")) <= args.maxRecent
  {
    RunCommandsBound(Document(data).value, args, stamp);
  }

  lemma {:induction false} RunTroubleFirst(d: seq<Prop>, args: Args, stamp: string)
    requires Run(d, args, stamp).Ok? && args.trouble != ""
    ensures Lookup(Base(d), "troubleshooting").Arr?
    ensures Lookup(Run(d, args, stamp).value, "troubleshooting")
         == Arr([TroubleEntry(stamp, ParseTrouble(args.trouble))] + Lookup(Base(d), "troubleshooting").items)
  {
    var st := StagesOf(d, args, stamp);
    CmdsKeepsOthers(st.d3, st.d4, args.addCommand, args.maxRecent, "troubleshooting");
    NextKeepsOthers(st.d2, st.d3, args.next, "troubleshooting");
    DodKeepsOthers(st.d1, st.d2, args.dod, "troubleshooting");
    StepKeepsOthers(st.d0, st.d1, args.step, "troubleshooting");
  }

  /** `--trouble` puts its parsed entry first and keeps the earlier entries in order after it. */
  lemma UpdateTroubleFirst(data: Value, args: Args, stamp: string)
    requires Update(data, args, stamp).Ok? && args.trouble != ""
    ensures Lookup(Base(Document(data).value), "troubleshooting").Arr?
    ensures Get(Update(data, args, stamp).value, "troubleshooting")
         == Arr([TroubleEntry(stamp, ParseTrouble(args.trouble))] + Lookup(Base(Document(data).value), "troubleshooting").items)
  {
    RunTroubleFirst(Document(data).value, args, stamp);
  }

  // ---------------------------------------------------------------------------
  // Documents the updater always accepts
  // ---------------------------------------------------------------------------

  /** `k` is missing, `None` or a list. */
  predicate ListSlot(d: seq<Prop>, k: string) {
    Unset(d, k) || Lookup(d, k).Arr?
  }

  /** The shape the updater itself writes: a mapping whose step is a mapping and whose lists are lists. */
  predicate WellFormedDoc(d: seq<Prop>) {
    && (Unset(d, "current_step")
        || (Lookup(d, "current_step").Obj? && ListSlot(Lookup(d, "current_step").props, "definition_of_done")))
    && ListSlot(d, "commands_recent") && ListSlot(d, "troubleshooting") && ListSlot(d, "next_steps")
  }

  predicate WellFormed(data: Value) {
    !PyTruthy(data) || (data.Obj? && WellFormedDoc(data.props))
  }

  /** After the defaults the step is a mapping and the two lists are lists. */
  predicate Settled(d: seq<Prop>) {
    && Lookup(d, "current_step").Obj? && ListSlot(Lookup(d, "current_step").props, "definition_of_done")
    && Lookup(d, "commands_recent").Arr? && Lookup(d, "troubleshooting").Arr? && ListSlot(d, "next_steps")
  }

  lemma BaseSettles(d: seq<Prop>)
    requires WellFormedDoc(d)
    ensures Settled(Base(d))
  {
    var e1 := Ensure(d, "current_step", Obj([]));
    var e2 := Ensure(e1, "commands_recent", Arr([]));
    var e3 := Ensure(e2, "troubleshooting", Arr([]));
    assert e3 == Base(d);
    assert Lookup(e1, "current_step").Obj?;
    assert ListSlot(Lookup(e1, "current_step").props, "definition_of_done");
    assert ListSlot(e1, "next_steps");
    assert Lookup(e2, "commands_recent").Arr?;
    assert ListSlot(e2, "next_steps");
  }

  lemma StepKeepsSettled(d: seq<Prop>, args: Args)
    requires Settled(d)
    ensures SetStep(d, args.step).Ok? && Settled(SetStep(d, args.step).value)
  {
    if args.step != "" {
      var cs := Lookup(d, "current_step").props;
      var cs' := SetProp(cs, "name", Str(args.step));
      assert Lookup(cs', "definition_of_done") == Lookup(cs, "definition_of_done");
    }
  }

  lemma DodKeepsSettled(d: seq<Prop>, args: Args)
    requires Settled(d)
    ensures AddDod(d, args.dod).Ok? && Settled(AddDod(d, args.dod).value)
  {
    if args.dod != [] {
      var cs := Lookup(d, "current_step").props;
      var cs' := Ensure(cs, "definition_of_done", Arr([]));
      var v := AppendNew(Lookup(cs', "definition_of_done"), args.dod).value;
      assert Lookup(SetProp(cs', "definition_of_done", v), "definition_of_done") == v;
    }
  }

  lemma NextKeepsSettled(d: seq<Prop>, args: Args)
    requires Settled(d)
    ensures AddNext(d, args.next).Ok? && Settled(AddNext(d, args.next).value)
  {
    if args.next != [] {
      var d' := Ensure(d, "next_steps", Arr([]));
      assert Lookup(d', "next_steps").Arr?;
      var v := AppendNew(Lookup(d', "next_steps"), args.next);
      assert v.Ok? && v.value.Arr?;
      var r := AddNext(d, args.next).value;
      assert r == Write(d', "next_steps", v.value);
      NextKeepsOthers(d, r, args.next, "current_step");
      NextKeepsOthers(d, r, args.next, "commands_recent");
      NextKeepsOthers(d, r, args.next, "troubleshooting");
    }
  }

  lemma CmdsKeepsSettled(d: seq<Prop>, args: Args)
    requires Settled(d)
    ensures AddCmds(d, args.addCommand, args.maxRecent).Ok? && Settled(AddCmds(d, args.addCommand, args.maxRecent).value)
  {
    if args.addCommand != [] {
      var recent := Lookup(d, "commands_recent");
      var v := AddCommands(recent, args.addCommand, args.maxRecent);
      assert v.Ok? && v.value.Arr?;
      var r := AddCmds(d, args.addCommand, args.maxRecent);
      assert r.Ok? && Lookup(r.value, "commands_recent") == v.value;
      CmdsKeepsOthers(d, r.value, args.addCommand, args.maxRecent, "current_step");
      CmdsKeepsOthers(d, r.value, args.addCommand, args.maxRecent, "troubleshooting");
      CmdsKeepsOthers(d, r.value, args.addCommand, args.maxRecent, "next_steps");
    }
  }

  lemma TroubleKeepsSettled(d: seq<Prop>, trouble: string, stamp: string)
    requires Settled(d)
    ensures AddTrouble(d, trouble, stamp).Ok? && Settled(AddTrouble(d, trouble, stamp).value)
  {
    if trouble != "" {
      var r := AddTrouble(d, trouble, stamp).value;
      TroubleKeepsOthers(d, r, trouble, stamp, "current_step");
      TroubleKeepsOthers(d, r, trouble, stamp, "commands_recent");
      TroubleKeepsOthers(d, r, trouble, stamp, "next_steps");
    }
  }

  lemma {:induction false} RunSettled(d: seq<Prop>, args: Args, stamp: string)
    requires Settled(Base(d))
    ensures Run(d, args, stamp).Ok? && Settled(Run(d, args, stamp).value)
  {
    var d0 := Base(d);
    StepKeepsSettled(d0, args);
    var d1 := SetStep(d0, args.step).value;
    DodKeepsSettled(d1, args);
    var d2 := AddDod(d1, args.dod).value;
    NextKeepsSettled(d2, args);
    var d3 := AddNext(d2, args.next).value;
    CmdsKeepsSettled(d3, args);
    var d4 := AddCmds(d3, args.addCommand, args.maxRecent).value;
    TroubleKeepsSettled(d4, args.trouble, stamp);
  }

  /** A well-formed document (or none at all) is always accepted, and the result is well-formed again. */
  lemma UpdatePreservesWellFormed(data: Value, args: Args, stamp: string)
    requires WellFormed(data)
    ensures Update(data, args, stamp).Ok?
    ensures WellFormed(Update(data, args, stamp).value)
  {
    var d := Document(data).value;
    BaseSettles(d);
    RunSettled(d, args, stamp);
  }

  // ---------------------------------------------------------------------------
  // The shape of `commands_recent`
  // ---------------------------------------------------------------------------

  function Reverse<T>(s: seq<T>): (r: seq<T>)
    ensures |r| == |s|
  {
    if s == [] then [] else Reverse(s[1..]) + [s[0]]
  }

  /** Commands pushed once each end up in reverse argument order. */
  lemma {:induction false} LatestOfDistinct(cs: seq<Value>)
    requires Ordering.Distinct(cs)
    ensures Latest(cs) == Reverse(cs)
    decreases |cs|
  {
    if cs != [] {
      assert cs[0] !in cs[1..];
      assert Ordering.Distinct(cs[1..]);
      LatestOfDistinct(cs[1..]);
    }
  }

  /** On a list without duplicates, `Drop` removes every value of `s` and keeps the rest distinct. */
  lemma {:induction false} DropDistinct(xs: seq<Value>, s: set<Value>)
    requires Ordering.Distinct(xs)
    ensures Ordering.Distinct(Drop(xs, s))
    ensures forall v :: v in Drop(xs, s) ==> v in xs && v !in s
    decreases |xs|
  {
    if xs != [] {
      var x, tail := xs[0], xs[1..];
      assert x !in tail;
      assert Ordering.Distinct(tail);
      if x in s {
        DropDistinct(tail, s - {x});
      } else {
        DropDistinct(tail, s);
        var r := [x] + Drop(tail, s);
        forall i, j | 0 <= i < j < |r| ensures r[i] != r[j] {
          if i == 0 {
            assert r[j] in Drop(tail, s);
          } else {
            assert r[i] == Drop(tail, s)[i - 1] && r[j] == Drop(tail, s)[j - 1];
          }
        }
      }
    }
  }

  /** A list without duplicates stays without duplicates, whatever is pushed. */
  lemma PushAllDistinct(xs: seq<Value>, cs: seq<Value>)
    requires Ordering.Distinct(xs)
    ensures Ordering.Distinct(PushAll(xs, cs))
  {
    var a, b := Latest(cs), Drop(xs, Elems(cs));
    DropDistinct(xs, Elems(cs));
    forall i, j | 0 <= i < j < |a + b| ensures (a + b)[i] != (a + b)[j] {
      if i >= |a| {
        assert (a + b)[i] == b[i - |a|] && (a + b)[j] == b[j - |a|];
      } else if j >= |a| {
        assert (a + b)[i] == a[i] && a[i] in cs;
        assert (a + b)[j] == b[j - |a|] && b[j - |a|] !in Elems(cs);
      }
    }
  }

  /**
   * `--add-command` with commands that are pairwise distinct: they lead the
   * list in reverse argument order, followed by the old list without the
   * first occurrence of each, and the whole is cut to `max_recent`.
   */
  lemma AddCommandsShape(xs: seq<Value>, addCommand: seq<string>, maxRecent: int)
    requires Ordering.Distinct(NonBlank(addCommand))
    ensures var cs := Strs(NonBlank(addCommand));
      AddCommands(Arr(xs), addCommand, maxRecent) == Slice(Arr(Reverse(cs) + Drop(xs, Elems(cs))), maxRecent)
  {
    var kept := NonBlank(addCommand);
    var cs := Strs(kept);
    assert Ordering.Distinct(cs) by {
      forall i, j | 0 <= i < j < |cs| ensures cs[i] != cs[j] {
        assert cs[i] == Str(kept[i]) && cs[j] == Str(kept[j]);
      }
    }
    LatestOfDistinct(cs);
  }

}
