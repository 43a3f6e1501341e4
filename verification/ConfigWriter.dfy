/**
  Rewriting one table of a `.letify` file in place: `_span`, `_merge`, `write_block`,
  `format_block` and `remove_block`.

  A file is its lines with their ends, as `splitlines(keepends=True)` gives them; only the last
  may have none. Settings have bare keys and values already rendered on one line.

  A file is read for three things: the settings of the alias's own table (`OwnKeys`), the
  settings of every other table with the header each stands under (`Elsewhere` of `Entries`), and
  the lines that are not settings, that is comments, headers and anything else (`Notes`). The
  theorems say what a write makes of the first, that it keeps the other two but for the header of
  a new table, and that writing the same settings again changes no line.
*/
module ConfigWriter {
  import opened Strings

  datatype Line = Line(text: string, ended: bool)
  type File = seq<Line>

  datatype Value = Absent | Given(text: string)
  datatype Setting = Setting(key: string, value: Value)

  /** All but the last line are ended. */
  ghost predicate Joined(f: File) {
    forall i | 0 <= i < |f| - 1 :: f[i].ended
  }

  /** The text of `a` followed by the text of `b`: an unended last line runs on. */
  function Cat(a: File, b: File): File {
    if a == [] || a[|a| - 1].ended || b == [] then a + b
    else a[..|a| - 1] + [Line(a[|a| - 1].text + b[0].text, b[0].ended)] + b[1..]
  }

  lemma {:induction false} Group<T>(x: seq<T>, y: seq<T>, z: seq<T>)
    ensures x + (y + z) == x + y + z
  {
  }

  lemma {:induction false} Unnest<T>(a: seq<T>, b: seq<T>)
    requires a != []
    ensures (a + b)[1..] == a[1..] + b && (a + b)[0] == a[0]
  {
  }

  // ---------------------------------------------------------------- lines

  predicate IsHeader(s: string) {
    s != "" && s[0] == '['
  }

  /** The line opens the alias's table: `[alias]` and nothing but blanks. */
  predicate Opens(s: string, alias: string) {
    var head := "[" + alias + "]";
    head <= s && forall i | |head| <= i < |s| :: Blank(s[i])
  }

  predicate Empty(s: string) {
    Strip(s) == ""
  }

  /** Empty, or a comment. */
  predicate Quiet(s: string) {
    Empty(s) || Strip(s)[0] == '#'
  }

  predicate IsKey(s: string) {
    !Quiet(s) && '=' in Strip(s)
  }

  /** What stands before the first `=`. */
  function Before(s: string): string {
    if s == "" || s[0] == '=' then "" else [s[0]] + Before(s[1..])
  }

  function Name(s: string): string {
    Strip(Before(Strip(s)))
  }

  function Render(key: string, value: string): string {
    key + " = " + value
  }

  predicate BareChar(c: char) {
    'a' <= c <= 'z' || 'A' <= c <= 'Z' || '0' <= c <= '9' || c == '_' || c == '-'
  }

  predicate Bare(key: string) {
    key != "" && forall i | 0 <= i < |key| :: BareChar(key[i])
  }

  lemma {:induction false} BeforeKey(key: string, rest: string)
    requires Bare(key)
    ensures Before(key + " =" + rest) == key + " "
    decreases |key|
  {
    var s := key + " =" + rest;
    assert BareChar(key[0]) && s[0] == key[0];
    if |key| == 1 {
      assert s[1..] == " =" + rest && s[1..][1..] == "=" + rest;
      assert Before("=" + rest) == "" && Before(" =" + rest) == " ";
    } else {
      assert Bare(key[1..]);
      BeforeKey(key[1..], rest);
      assert s[1..] == key[1..] + " =" + rest;
    }
  }

  lemma {:induction false} StripBare(key: string)
    requires Bare(key)
    ensures Strip(key) == key && Strip(key + " ") == key
  {
    assert BareChar(key[0]) && BareChar(key[|key| - 1]);
    var s := key + " ";
    assert s[0] == key[0] && s[..|s| - 1] == key;
  }

  /** Stripping a text whose first character stays drops characters only from its end. */
  lemma {:induction false} StripKeepsStart(s: string, n: nat)
    requires 0 < n <= |s| && !Blank(s[0]) && !Blank(s[n - 1])
    ensures n <= |Strip(s)| <= |s| && Strip(s) == s[..|Strip(s)|]
    decreases |s|
  {
    if Blank(s[|s| - 1]) {
      var t := s[..|s| - 1];
      StripKeepsStart(t, n);
      assert t[..|Strip(t)|] == s[..|Strip(t)|];
    } else {
      assert s == s[..|s|];
    }
  }

  /** A written setting reads as a key line of its own name. */
  lemma {:induction false} RenderIsKey(key: string, value: string)
    requires Bare(key)
    ensures IsKey(Render(key, value)) && Name(Render(key, value)) == key && !IsHeader(Render(key, value))
  {
    var s := Render(key, value);
    var n := |key| + 2;
    assert s[0] == key[0] && BareChar(key[0]) && s[n - 1] == '=';
    StripKeepsStart(s, n);
    var t := Strip(s);
    assert t[n - 1] == '=' && t[0] == key[0];
    assert t == key + " =" + t[n..];
    BeforeKey(key, t[n..]);
    StripBare(key);
  }

  // ---------------------------------------------------------------- string values

  /** The two characters that cannot appear raw in a basic string, escaped. */
  function Escape(s: string): string {
    if s == "" then ""
    else (if s[0] == '\\' then "\\\\" else if s[0] == '"' then "\\\"" else [s[0]]) + Escape(s[1..])
  }

  /** `_quote`. */
  function Quote(s: string): string {
    "\"" + Escape(s) + "\""
  }

  datatype Reading = Read(text: string, rest: string) | Unterminated

  /** A basic string from after its opening quote, with the escapes `_quote` uses. */
  function ReadString(t: string): Reading {
    if t == "" then Unterminated
    else if t[0] == '"' then Read("", t[1..])
    else
      var escaped := t[0] == '\\' && |t| > 1;
      match ReadString(if escaped then t[2..] else t[1..])
      case Unterminated => Unterminated
      case Read(text, rest) => Read([if escaped then t[1] else t[0]] + text, rest)
  }

  function EscapeChar(c: char): string {
    if c == '\\' || c == '"' then ['\\', c] else [c]
  }

  lemma {:induction false} EscapeFirst(s: string, rest: string)
    requires s != ""
    ensures Escape(s) + "\"" + rest == EscapeChar(s[0]) + (Escape(s[1..]) + "\"" + rest)
  {
  }

  lemma {:induction false} ReadFirst(c: char, tail: string)
    requires ReadString(tail).Read?
    ensures ReadString(EscapeChar(c) + tail) == Read([c] + ReadString(tail).text, ReadString(tail).rest)
  {
    var t := EscapeChar(c) + tail;
    assert t[|EscapeChar(c)|..] == tail;
  }

  /** A quoted string reads back as the text, whatever backslashes and quotes it has, and ends where it ended. */
  lemma {:induction false} QuoteReadsBack(s: string, rest: string)
    ensures ReadString(Escape(s) + "\"" + rest) == Read(s, rest)
    decreases |s|
  {
    if s == "" {
      var t := "\"" + rest;
      assert "" + "\"" + rest == t && t[1..] == rest;
    } else {
      QuoteReadsBack(s[1..], rest);
      var tail := Escape(s[1..]) + "\"" + rest;
      EscapeFirst(s, rest);
      ReadFirst(s[0], tail);
      assert s == [s[0]] + s[1..];
    }
  }

  // ---------------------------------------------------------------- the span of a table

  /** The first line that opens the table, or the number of lines. */
  function Start(f: File, alias: string): (h: nat)
    ensures h <= |f| && (h < |f| ==> Opens(f[h].text, alias))
    ensures forall i | 0 <= i < h :: !Opens(f[i].text, alias)
  {
    if f == [] then 0
    else if Opens(f[0].text, alias) then 0
    else
      var h := Start(f[1..], alias);
      assert forall i | 0 < i < h + 1 :: f[i] == f[1..][i - 1];
      h + 1
  }

  /** The first header line from `i` on, or the number of lines. */
  function NextHeader(f: File, i: nat): (t: nat)
    requires i <= |f|
    ensures i <= t <= |f| && (t < |f| ==> IsHeader(f[t].text))
    ensures forall k | i <= k < t :: !IsHeader(f[k].text)
    decreases |f| - i
  {
    if i == |f| || IsHeader(f[i].text) then i else NextHeader(f, i + 1)
  }

  /** The lines of `[i, t)` without the quiet ones at their end. */
  function LastLoud(f: File, i: nat, t: nat): (m: nat)
    requires i <= t <= |f|
    ensures i <= m <= t && (m > i ==> !Quiet(f[m - 1].text))
    ensures forall k | m <= k < t :: Quiet(f[k].text)
    decreases t
  {
    if t == i || !Quiet(f[t - 1].text) then t else LastLoud(f, i, t - 1)
  }

  /** The first line from `i` that is not empty. */
  function SkipEmpty(f: File, i: nat, t: nat): (q: nat)
    requires i <= t <= |f|
    ensures i <= q <= t
    decreases t - i
  {
    if i == t || !Empty(f[i].text) then i else SkipEmpty(f, i + 1, t)
  }

  /** The table and what follows it. */
  datatype Cut = Cut(block: File, rest: File)

  /**
    `_span` from the header on. With a table below, the comments and empty lines above that
    table are not part of this one. With nothing else in between, the pattern for the header has
    taken the empty lines below it, all but the end of the last.
  */
  function Span(f: File, h: nat): Cut
    requires h < |f|
  {
    var t := NextHeader(f, h + 1);
    if t == |f| then Cut(f[h..], [])
    else
      var m := LastLoud(f, h + 1, t);
      if m > h + 1 then Cut(f[h..m], f[m..])
      else
        var q := SkipEmpty(f, h + 1, t);
        Cut(f[h..q - 1] + [Line(f[q - 1].text, false)], [Line("", f[q - 1].ended)] + f[q..])
  }

  /** The cut gives the table's lines and what follows back together. */
  ghost predicate GoodCut(c: Cut, f: File, h: nat)
    requires h < |f|
  {
    Cat(c.block, c.rest) == f[h..] && c.block != [] && c.block[0].text == f[h].text && Joined(c.block)
  }

  lemma {:induction false} CutAt(f: File, h: nat, m: nat)
    requires h < m <= |f| && Joined(f)
    ensures GoodCut(Cut(f[h..m], f[m..]), f, h)
  {
    assert f[h..] == f[h..m] + f[m..];
  }

  lemma {:induction false} CutInside(f: File, h: nat, q: nat)
    requires h < q <= |f| && Joined(f)
    ensures GoodCut(Cut(f[h..q - 1] + [Line(f[q - 1].text, false)], [Line("", f[q - 1].ended)] + f[q..]), f, h)
  {
    var a, b := f[h..q - 1] + [Line(f[q - 1].text, false)], [Line("", f[q - 1].ended)] + f[q..];
    assert a[..|a| - 1] == f[h..q - 1] && b[1..] == f[q..];
    assert f[q - 1].text + "" == f[q - 1].text;
    assert f[h..] == f[h..q - 1] + [f[q - 1]] + f[q..];
  }

  lemma {:induction false} ToTheEnd(f: File, h: nat)
    requires h < |f| && Joined(f)
    ensures GoodCut(Cut(f[h..], []), f, h)
  {
    assert f[h..] + [] == f[h..];
  }

  lemma {:induction false} SpanJoins(f: File, h: nat)
    requires h < |f| && Joined(f)
    ensures GoodCut(Span(f, h), f, h)
  {
    var t := NextHeader(f, h + 1);
    if t == |f| {
      ToTheEnd(f, h);
    } else {
      var m := LastLoud(f, h + 1, t);
      if m > h + 1 { CutAt(f, h, m); } else { CutInside(f, h, SkipEmpty(f, h + 1, t)); }
    }
  }

  // ---------------------------------------------------------------- settings

  ghost predicate Settings(o: seq<Setting>) {
    && (forall i | 0 <= i < |o| :: Bare(o[i].key))
    && (forall i, j :: 0 <= i < j < |o| ==> o[i].key != o[j].key)
  }

  /** The value wanted for a name, if any. */
  function Wanted(o: seq<Setting>, name: string): Value {
    if o == [] then Absent else if o[0].key == name then o[0].value else Wanted(o[1..], name)
  }

  function Insert(s: Setting, o: seq<Setting>): seq<Setting> {
    if o == [] then [s] else if AtMost(s.key, o[0].key) then [s] + o else [o[0]] + Insert(s, o[1..])
  }

  /** kind first, then the others by key. */
  function Ordered(o: seq<Setting>): seq<Setting> {
    if o == [] then []
    else
      var rest := Ordered(o[1..]);
      if o[0].key == "kind" then [o[0]] + rest
      else if rest != [] && rest[0].key == "kind" then [rest[0]] + Insert(o[0], rest[1..])
      else Insert(o[0], rest)
  }

  lemma {:induction false} InsertHas(s: Setting, o: seq<Setting>)
    ensures forall x :: x in Insert(s, o) <==> x == s || x in o
    decreases |o|
  {
    if o != [] {
      InsertHas(s, o[1..]);
      assert o == [o[0]] + o[1..];
    }
  }

  lemma {:induction false} OrderedHas(o: seq<Setting>)
    ensures forall x :: x in Ordered(o) <==> x in o
    decreases |o|
  {
    if o != [] {
      OrderedHas(o[1..]);
      var rest := Ordered(o[1..]);
      assert o == [o[0]] + o[1..];
      InsertHas(o[0], rest);
      if rest != [] {
        InsertHas(o[0], rest[1..]);
        assert rest == [rest[0]] + rest[1..];
      }
    }
  }

  lemma {:induction false} WantedIs(o: seq<Setting>, s: Setting)
    requires Settings(o)
    ensures s in o ==> Wanted(o, s.key) == s.value
    ensures Wanted(o, s.key).Given? ==> Setting(s.key, Wanted(o, s.key)) in o
    decreases |o|
  {
    if o != [] {
      assert o == [o[0]] + o[1..];
      assert Settings(o[1..]) by {
        forall i | 0 <= i < |o[1..]| ensures Bare(o[1..][i].key) { assert o[1..][i] == o[i + 1]; }
        forall i, j | 0 <= i < j < |o[1..]| ensures o[1..][i].key != o[1..][j].key {
          assert o[1..][i] == o[i + 1] && o[1..][j] == o[j + 1];
        }
      }
      WantedIs(o[1..], s);
      if s in o[1..] {
        var k :| 0 <= k < |o[1..]| && o[1..][k] == s;
        assert o[k + 1] == s;
      }
    }
  }

  // ---------------------------------------------------------------- merging

  /** The line is a setting that is wanted. */
  predicate Stays(s: string, o: seq<Setting>) {
    IsKey(s) && Wanted(o, Name(s)).Given?
  }

  /** What becomes of one line. */
  function KeptLine(l: Line, o: seq<Setting>): File {
    if !IsKey(l.text) then [l]
    else if Wanted(o, Name(l.text)).Given? then [Line(Render(Name(l.text), Wanted(o, Name(l.text)).text), l.ended)]
    else []
  }

  /** The lines under the header after the rewrite: settings in place, unwanted ones gone. */
  function Kept(body: File, o: seq<Setting>): File {
    if body == [] then []
    else KeptLine(body[0], o) + Kept(body[1..], o)
  }

  /** How many lines of the body run to the last setting that stays. */
  function LastStays(body: File, o: seq<Setting>): (n: nat)
    ensures n <= |body| && (n > 0 ==> Stays(body[n - 1].text, o))
    ensures forall k | n <= k < |body| :: !Stays(body[k].text, o)
    decreases |body|
  {
    if body == [] then 0
    else if Stays(body[|body| - 1].text, o) then |body|
    else LastStays(body[..|body| - 1], o)
  }

  predicate Seen(body: File, name: string) {
    exists l | l in body :: IsKey(l.text) && Name(l.text) == name
  }

  /** The line of a setting the table did not have. */
  function AddedLine(body: File, s: Setting): (r: File)
    ensures forall i | 0 <= i < |r| :: r[i].ended
  {
    if s.value.Given? && !Seen(body, s.key) then [Line(Render(s.key, s.value.text), true)] else []
  }

  /** The settings the table did not have, in order. */
  function Added(body: File, ordered: seq<Setting>): (r: File)
    ensures forall i | 0 <= i < |r| :: r[i].ended
  {
    if ordered == [] then []
    else AddedLine(body, ordered[0]) + Added(body, ordered[1..])
  }

  /** An added line needs the one before it ended. */
  function Ended(f: File): File {
    if f == [] then [] else f[..|f| - 1] + [Line(f[|f| - 1].text, true)]
  }

  /** `_merge`. */
  function Merge(block: File, o: seq<Setting>): File
    requires block != []
  {
    var body := block[1..];
    var n := LastStays(body, o);
    var front, back, added := [block[0]] + Kept(body[..n], o), Kept(body[n..], o), Added(body, Ordered(o));
    (if added == [] then front else Ended(front)) + added + back
  }

  lemma {:induction false} KeptAppend(a: File, b: File, o: seq<Setting>)
    ensures Kept(a + b, o) == Kept(a, o) + Kept(b, o)
    decreases |a|
  {
    if a == [] {
      assert a + b == b;
    } else {
      KeptAppend(a[1..], b, o);
      Unnest(a, b);
      Group(KeptLine(a[0], o), Kept(a[1..], o), Kept(b, o));
    }
  }

  // ---------------------------------------------------------------- what a rewrite keeps

  /** The texts of lines that are not settings: comments, empty lines and the rest. */
  function Others(f: File): seq<string> {
    if f == [] then [] else OtherPart(f[0].text) + Others(f[1..])
  }

  function OtherPart(s: string): seq<string> {
    if IsKey(s) then [] else [s]
  }

  function KeyPart(s: string): seq<string> {
    if IsKey(s) then [s] else []
  }

  /** The texts of the settings. */
  function Keys(f: File): seq<string> {
    if f == [] then [] else KeyPart(f[0].text) + Keys(f[1..])
  }

  lemma {:induction false} OthersAppend(a: File, b: File)
    ensures Others(a + b) == Others(a) + Others(b)
    decreases |a|
  {
    if a == [] {
      assert a + b == b;
    } else {
      OthersAppend(a[1..], b);
      Unnest(a, b);
      Group(OtherPart(a[0].text), Others(a[1..]), Others(b));
    }
  }

  lemma {:induction false} KeysAppend(a: File, b: File)
    ensures Keys(a + b) == Keys(a) + Keys(b)
    decreases |a|
  {
    if a == [] {
      assert a + b == b;
    } else {
      KeysAppend(a[1..], b);
      Unnest(a, b);
      Group(KeyPart(a[0].text), Keys(a[1..]), Keys(b));
    }
  }

  lemma {:induction false} One(l: Line)
    ensures Others([l]) == (if IsKey(l.text) then [] else [l.text]) && Keys([l]) == (if IsKey(l.text) then [l.text] else [])
  {
    assert [l][1..] == [];
  }

  lemma {:induction false} EndedOthers(f: File)
    ensures Others(Ended(f)) == Others(f)
  {
    if f != [] {
      var n := |f| - 1;
      OthersAppend(f[..n], [f[n]]);
      OthersAppend(f[..n], [Line(f[n].text, true)]);
      assert f == f[..n] + [f[n]];
      One(f[n]);
      One(Line(f[n].text, true));
    }
  }

  lemma {:induction false} EndedKeys(f: File)
    ensures Keys(Ended(f)) == Keys(f)
  {
    if f != [] {
      var n := |f| - 1;
      KeysAppend(f[..n], [f[n]]);
      KeysAppend(f[..n], [Line(f[n].text, true)]);
      assert f == f[..n] + [f[n]];
      One(f[n]);
      One(Line(f[n].text, true));
    }
  }

  lemma {:induction false} WantedIsBare(o: seq<Setting>, name: string)
    requires Settings(o) && Wanted(o, name).Given?
    ensures Bare(name)
  {
    WantedIs(o, Setting(name, Absent));
    var s := Setting(name, Wanted(o, name));
    var k :| 0 <= k < |o| && o[k] == s;
    assert Bare(o[k].key);
  }

  lemma {:induction false} KeptLineOthers(l: Line, o: seq<Setting>)
    requires Settings(o)
    ensures Others(KeptLine(l, o)) == Others([l])
  {
    One(l);
    if Stays(l.text, o) {
      var name := Name(l.text);
      WantedIsBare(o, name);
      RenderIsKey(name, Wanted(o, name).text);
      One(Line(Render(name, Wanted(o, name).text), l.ended));
    }
  }

  lemma {:induction false} KeptOthers(body: File, o: seq<Setting>)
    requires Settings(o)
    ensures Others(Kept(body, o)) == Others(body)
    decreases |body|
  {
    if body != [] {
      KeptOthers(body[1..], o);
      KeptLineOthers(body[0], o);
      OthersAppend(KeptLine(body[0], o), Kept(body[1..], o));
      OthersAppend([body[0]], body[1..]);
      assert body == [body[0]] + body[1..];
    }
  }

  lemma {:induction false} AddedOthers(body: File, ordered: seq<Setting>)
    requires forall s | s in ordered :: Bare(s.key)
    ensures Others(Added(body, ordered)) == []
    decreases |ordered|
  {
    if ordered != [] {
      var s := ordered[0];
      assert forall x | x in ordered[1..] :: x in ordered;
      AddedOthers(body, ordered[1..]);
      OthersAppend(AddedLine(body, s), Added(body, ordered[1..]));
      if s.value.Given? && !Seen(body, s.key) {
        RenderIsKey(s.key, s.value.text);
        One(Line(Render(s.key, s.value.text), true));
      }
    }
  }

  lemma {:induction false} OrderedBare(o: seq<Setting>)
    requires Settings(o)
    ensures forall s | s in Ordered(o) :: Bare(s.key)
  {
    OrderedHas(o);
  }

  /** The parts of a rewritten table. */
  datatype Parts = Parts(front: File, added: File, back: File)

  function PartsOf(block: File, o: seq<Setting>): Parts
    requires block != []
  {
    var body := block[1..];
    var n := LastStays(body, o);
    Parts([block[0]] + Kept(body[..n], o), Added(body, Ordered(o)), Kept(body[n..], o))
  }

  lemma {:induction false} MergeOthers(block: File, o: seq<Setting>)
    requires block != []
    ensures var p := PartsOf(block, o); Others(Merge(block, o)) == Others(p.front) + Others(p.added) + Others(p.back)
  {
    var p := PartsOf(block, o);
    var first := if p.added == [] then p.front else Ended(p.front);
    EndedOthers(p.front);
    OthersAppend(first + p.added, p.back);
    OthersAppend(first, p.added);
  }

  lemma {:induction false} MergeKeys(block: File, o: seq<Setting>)
    requires block != []
    ensures var p := PartsOf(block, o); Keys(Merge(block, o)) == Keys(p.front) + Keys(p.added) + Keys(p.back)
  {
    var p := PartsOf(block, o);
    var first := if p.added == [] then p.front else Ended(p.front);
    EndedKeys(p.front);
    KeysAppend(first + p.added, p.back);
    KeysAppend(first, p.added);
  }

  lemma {:induction false} KeptSplit(body: File, n: nat, o: seq<Setting>)
    requires n <= |body|
    ensures Kept(body[..n], o) + Kept(body[n..], o) == Kept(body, o)
  {
    KeptAppend(body[..n], body[n..], o);
    assert body == body[..n] + body[n..];
  }

  lemma {:induction false} Rejoin(head: File, a: File, b: File, body: File)
    requires Others(a + b) == Others(body)
    ensures Others(head + a) + Others(b) == Others(head + body)
  {
    OthersAppend(head, a);
    OthersAppend(a, b);
    OthersAppend(head, body);
    Group(Others(head), Others(a), Others(b));
  }

  lemma {:induction false} PartsOthers(block: File, o: seq<Setting>)
    requires block != [] && Settings(o)
    ensures Others(PartsOf(block, o).front) + Others(PartsOf(block, o).back) == Others(block)
  {
    var body := block[1..];
    var n := LastStays(body, o);
    KeptSplit(body, n, o);
    KeptOthers(body, o);
    Rejoin([block[0]], Kept(body[..n], o), Kept(body[n..], o), body);
    assert block == [block[0]] + body;
  }

  /** Comments, empty lines and everything else that is not a setting stay, in order. */
  lemma {:induction false} CommentsSurvive(block: File, o: seq<Setting>)
    requires block != [] && Settings(o)
    ensures Others(Merge(block, o)) == Others(block)
  {
    MergeOthers(block, o);
    OrderedBare(o);
    AddedOthers(block[1..], Ordered(o));
    PartsOthers(block, o);
    assert Others(PartsOf(block, o).front) + [] == Others(PartsOf(block, o).front);
  }

  lemma {:induction false} KeptMore(body: File, i: nat, o: seq<Setting>)
    requires i < |body|
    ensures Kept(body[..i + 1], o) == Kept(body[..i], o) + KeptLine(body[i], o)
    ensures LastStays(body[..i + 1], o) == if Stays(body[i].text, o) then i + 1 else LastStays(body[..i], o)
  {
    assert body[..i + 1] == body[..i] + [body[i]] && body[..i + 1][..i] == body[..i];
    KeptAppend(body[..i], [body[i]], o);
    assert [body[i]][1..] == [] && KeptLine(body[i], o) + [] == KeptLine(body[i], o);
  }

  /** The names of the settings of the first `i` lines that stay. */
  ghost predicate SeenNames(seen: set<string>, body: File, i: nat, o: seq<Setting>)
    requires i <= |body|
  {
    forall name :: name in seen <==> exists k :: 0 <= k < i && Stays(body[k].text, o) && Name(body[k].text) == name
  }

  lemma {:induction false} SeenMore(seen: set<string>, body: File, i: nat, o: seq<Setting>)
    requires i < |body| && SeenNames(seen, body, i, o)
    ensures SeenNames(if Stays(body[i].text, o) then seen + {Name(body[i].text)} else seen, body, i + 1, o)
  {
  }

  lemma {:induction false} SeenIsSeen(seen: set<string>, body: File, o: seq<Setting>, s: Setting)
    requires SeenNames(seen, body, |body|, o) && Settings(o) && s in o && s.value.Given?
    ensures s.key in seen <==> Seen(body, s.key)
  {
    WantedIs(o, s);
    if Seen(body, s.key) {
      var l :| l in body && IsKey(l.text) && Name(l.text) == s.key;
      var k :| 0 <= k < |body| && body[k] == l;
      assert Stays(body[k].text, o);
    }
  }

  /** `last_key`: how many lines are kept up to the last setting that stays, the header included. */
  function LastKey(body: File, o: seq<Setting>): nat {
    var n := LastStays(body, o);
    if n == 0 then 0 else 1 + |Kept(body[..n], o)|
  }

  lemma {:induction false} LastKeyMore(body: File, i: nat, o: seq<Setting>)
    requires i < |body|
    ensures LastKey(body[..i + 1], o) == if Stays(body[i].text, o) then 1 + |Kept(body[..i + 1], o)| else LastKey(body[..i], o)
  {
    KeptMore(body, i, o);
    var n := LastStays(body[..i], o);
    assert body[..i + 1][..i + 1] == body[..i + 1] && body[..i + 1][..n] == body[..i][..n];
  }

  /** The pass over the body, having taken its first `i` lines. */
  ghost predicate Passed(head: Line, body: File, o: seq<Setting>, i: nat, kept: File, last: nat, seen: set<string>)
    requires i <= |body|
  {
    kept == [head] + Kept(body[..i], o) && last == LastKey(body[..i], o) && SeenNames(seen, body, i, o)
  }

  lemma {:induction false} PassLine(head: Line, body: File, o: seq<Setting>, i: nat, kept: File, last: nat, seen: set<string>)
    requires i < |body| && Passed(head, body, o, i, kept, last, seen)
    ensures var more := kept + KeptLine(body[i], o); var stays := Stays(body[i].text, o);
            Passed(head, body, o, i + 1, more, if stays then |more| else last, if stays then seen + {Name(body[i].text)} else seen)
  {
    KeptMore(body, i, o);
    LastKeyMore(body, i, o);
    SeenMore(seen, body, i, o);
    Group([head], Kept(body[..i], o), KeptLine(body[i], o));
  }

  /** The pass of `_merge` over the lines of the table. */
  method PassOver(block: File, o: seq<Setting>) returns (kept: File, last: nat, seen: set<string>)
    requires block != [] && Settings(o)
    ensures Passed(block[0], block[1..], o, |block| - 1, kept, last, seen)
  {
    kept, last, seen := [block[0]], 0, {};
    ghost var body := block[1..];
    assert body[..0] == [] && [block[0]] + [] == [block[0]];
    for i := 1 to |block|
      invariant Passed(block[0], body, o, i - 1, kept, last, seen)
    {
      var line := block[i];
      assert line == body[i - 1];
      PassLine(block[0], body, o, i - 1, kept, last, seen);
      if !IsKey(line.text) {
        kept := kept + [line];
      } else if Wanted(o, Name(line.text)).Given? {
        seen := seen + {Name(line.text)};
        kept := kept + [Line(Render(Name(line.text), Wanted(o, Name(line.text)).text), line.ended)];
        last := |kept|;
      } else {
        assert kept + [] == kept;
      }
    }
  }

  /** `_merge` as it runs: one pass over the lines, then the new settings after the last one kept. */
  method MergeLines(block: File, o: seq<Setting>) returns (r: File)
    requires block != [] && Settings(o)
    ensures r == Merge(block, o)
  {
    var kept, last, seen := PassOver(block, o);
    WholeBody(block);
    var added := NewSettings(block[1..], seen, o);
    if last == 0 { last := 1; }
    LastParts(block, o, kept, last);
    if added != [] { kept := kept[last - 1 := Line(kept[last - 1].text, true)]; }
    r := kept[..last] + added + kept[last..];
  }

  lemma {:induction false} WholeBody(block: File)
    requires block != []
    ensures block[1..][..|block| - 1] == block[1..]
  {
  }

  lemma {:induction false} AddedStep(body: File, ordered: seq<Setting>, i: nat, added: File)
    requires i < |ordered|
    ensures added + Added(body, ordered[i..]) == added + AddedLine(body, ordered[i]) + Added(body, ordered[i + 1..])
    ensures ordered[i] in ordered
  {
    assert ordered[i..][0] == ordered[i] && ordered[i..][1..] == ordered[i + 1..];
    Group(added, AddedLine(body, ordered[i]), Added(body, ordered[i + 1..]));
  }

  method NewSettings(ghost body: File, seen: set<string>, o: seq<Setting>) returns (added: File)
    requires Settings(o) && SeenNames(seen, body, |body|, o)
    ensures added == Added(body, Ordered(o))
  {
    added := [];
    var ordered := Ordered(o);
    OrderedHas(o);
    for i := 0 to |ordered|
      invariant added + Added(body, ordered[i..]) == Added(body, ordered)
    {
      var s := ordered[i];
      AddedStep(body, ordered, i, added);
      if s.value.Given? { SeenIsSeen(seen, body, o, s); }
      if s.value.Given? && s.key !in seen {
        added := added + [Line(Render(s.key, s.value.text), true)];
      } else {
        assert added + [] == added;
      }
    }
    assert ordered[|ordered|..] == [] && added + [] == added;
  }

  lemma {:induction false} FrontAndBack(a: File, b: File)
    requires a != []
    ensures var x := a + b; var y := x[|a| - 1 := Line(x[|a| - 1].text, true)];
            x[..|a|] == a && x[|a|..] == b && y[..|a|] == Ended(a) && y[|a|..] == b
  {
  }

  /** Where the new settings go: between the front and the back of the rewritten table. */
  lemma {:induction false} LastParts(block: File, o: seq<Setting>, kept: File, last: nat)
    requires block != [] && kept == [block[0]] + Kept(block[1..], o)
    requires var n := LastStays(block[1..], o); last == if n == 0 then 1 else 1 + |Kept(block[1..][..n], o)|
    ensures var p := PartsOf(block, o); kept == p.front + p.back && last == |p.front|
    ensures 0 < last <= |kept| && kept[..last] == PartsOf(block, o).front && kept[last..] == PartsOf(block, o).back
    ensures kept[last - 1 := Line(kept[last - 1].text, true)][..last] == Ended(PartsOf(block, o).front)
    ensures kept[last - 1 := Line(kept[last - 1].text, true)][last..] == PartsOf(block, o).back
  {
    var n := LastStays(block[1..], o);
    var p := PartsOf(block, o);
    KeptSplit(block[1..], n, o);
    if n == 0 { assert block[1..][..n] == []; }
    Group([block[0]], Kept(block[1..][..n], o), p.back);
    FrontAndBack(p.front, p.back);
  }

  /** A setting that stays keeps its line just when the line is as the writer renders it. */
  lemma {:induction false} SettingLineExact(l: Line, o: seq<Setting>)
    requires Settings(o) && Stays(l.text, o)
    ensures KeptLine(l, o) == [l] <==> exists s :: s in o && s.value.Given? && l.text == Render(s.key, s.value.text)
  {
    var name := Name(l.text);
    WantedIs(o, Setting(name, Absent));
    if s :| s in o && s.value.Given? && l.text == Render(s.key, s.value.text) {
      var k :| 0 <= k < |o| && o[k] == s;
      RenderIsKey(s.key, s.value.text);
      WantedIs(o, s);
    }
  }

  /** What the user put after a value on its line goes when the setting is written. */
  lemma {:induction false} InlineCommentLost(key: string, value: string, comment: string, o: seq<Setting>)
    requires Settings(o) && Setting(key, Given(value)) in o && comment != ""
    ensures var l := Line(Render(key, value) + comment, true);
            KeptLine(l, o) == [Line(Render(key, value), true)] && KeptLine(l, o) != [l]
  {
    var s := Setting(key, Given(value));
    var k :| 0 <= k < |o| && o[k] == s;
    assert Render(key, value) + comment == Render(key, value + comment);
    RenderIsKey(key, value + comment);
    WantedIs(o, s);
    assert |Render(key, value) + comment| > |Render(key, value)|;
  }

  // ---------------------------------------------------------------- a table's settings afterwards

  /** The setting as it is written. */
  ghost predicate Written(o: seq<Setting>, k: string) {
    exists s :: s in o && s.value.Given? && k == Render(s.key, s.value.text)
  }

  lemma {:induction false} WrittenIs(o: seq<Setting>, k: string)
    requires Settings(o) && Written(o, k)
    ensures IsKey(k) && !IsHeader(k) && Wanted(o, Name(k)).Given? && k == Render(Name(k), Wanted(o, Name(k)).text)
  {
    var s :| s in o && s.value.Given? && k == Render(s.key, s.value.text);
    WantedIs(o, s);
    WantedIsBare(o, s.key);
    RenderIsKey(s.key, s.value.text);
  }

  lemma {:induction false} StaysWritten(o: seq<Setting>, text: string)
    requires Settings(o) && Stays(text, o)
    ensures Written(o, Render(Name(text), Wanted(o, Name(text)).text))
  {
    WantedIs(o, Setting(Name(text), Absent));
  }

  lemma {:induction false} KeptKeys(body: File, o: seq<Setting>, k: string)
    requires Settings(o)
    ensures k in Keys(Kept(body, o))
            <==> exists l :: l in body && Stays(l.text, o) && k == Render(Name(l.text), Wanted(o, Name(l.text)).text)
    decreases |body|
  {
    if body != [] {
      var l := body[0];
      assert body == [l] + body[1..];
      KeptKeys(body[1..], o, k);
      KeysAppend(KeptLine(l, o), Kept(body[1..], o));
      KeptLineKeys(l, o);
    }
  }

  lemma {:induction false} KeptLineKeys(l: Line, o: seq<Setting>)
    requires Settings(o)
    ensures Keys(KeptLine(l, o)) == if Stays(l.text, o) then [Render(Name(l.text), Wanted(o, Name(l.text)).text)] else []
  {
    if Stays(l.text, o) {
      var name := Name(l.text);
      WantedIsBare(o, name);
      RenderIsKey(name, Wanted(o, name).text);
      One(Line(Render(name, Wanted(o, name).text), l.ended));
    } else {
      One(l);
    }
  }

  lemma {:induction false} AddedKeys(body: File, ordered: seq<Setting>, k: string)
    requires forall s | s in ordered :: Bare(s.key)
    ensures k in Keys(Added(body, ordered))
            <==> exists s :: s in ordered && s.value.Given? && !Seen(body, s.key) && k == Render(s.key, s.value.text)
    decreases |ordered|
  {
    if ordered != [] {
      var s := ordered[0];
      assert ordered == [s] + ordered[1..];
      AddedKeys(body, ordered[1..], k);
      KeysAppend(AddedLine(body, s), Added(body, ordered[1..]));
      if s.value.Given? && !Seen(body, s.key) {
        RenderIsKey(s.key, s.value.text);
        One(Line(Render(s.key, s.value.text), true));
      }
    }
  }

  lemma {:induction false} FrontBackKeys(block: File, o: seq<Setting>)
    requires block != [] && !IsKey(block[0].text)
    ensures Keys(PartsOf(block, o).front) + Keys(PartsOf(block, o).back) == Keys(Kept(block[1..], o))
  {
    var body := block[1..];
    var n := LastStays(body, o);
    KeysAppend([block[0]], Kept(body[..n], o));
    One(block[0]);
    KeptSplit(body, n, o);
    KeysAppend(Kept(body[..n], o), Kept(body[n..], o));
    assert [] + Keys(Kept(body[..n], o)) == Keys(Kept(body[..n], o));
  }

  lemma {:induction false} InMerge(block: File, o: seq<Setting>, k: string)
    requires block != [] && Settings(o) && !IsKey(block[0].text)
    ensures k in Keys(Merge(block, o)) <==> k in Keys(Kept(block[1..], o)) || k in Keys(Added(block[1..], Ordered(o)))
  {
    var p := PartsOf(block, o);
    MergeKeys(block, o);
    FrontBackKeys(block, o);
    assert k in Keys(p.front) + Keys(p.back) <==> k in Keys(p.front) || k in Keys(p.back);
  }

  /** After the rewrite the table's settings are just those given a value, as they are written. */
  lemma {:induction false} SettingsExact(block: File, o: seq<Setting>, k: string)
    requires block != [] && Settings(o) && !IsKey(block[0].text)
    ensures k in Keys(Merge(block, o)) <==> Written(o, k)
  {
    var body := block[1..];
    InMerge(block, o, k);
    OrderedHas(o);
    OrderedBare(o);
    KeptKeys(body, o, k);
    AddedKeys(body, Ordered(o), k);
    if k in Keys(Kept(body, o)) {
      var l :| l in body && Stays(l.text, o) && k == Render(Name(l.text), Wanted(o, Name(l.text)).text);
      StaysWritten(o, l.text);
    }
    if Written(o, k) {
      var s :| s in o && s.value.Given? && k == Render(s.key, s.value.text);
      WantedIs(o, s);
      if Seen(body, s.key) {
        var l :| l in body && IsKey(l.text) && Name(l.text) == s.key;
        assert Stays(l.text, o);
      }
    }
  }

  lemma {:induction false} InKeys(f: File, k: string)
    ensures k in Keys(f) <==> exists l :: l in f && IsKey(l.text) && l.text == k
    decreases |f|
  {
    if f != [] {
      InKeys(f[1..], k);
      assert f == [f[0]] + f[1..];
    }
  }

  // ---------------------------------------------------------------- each setting once

  /** No two settings have one name. */
  ghost predicate Apart(keys: seq<string>) {
    forall i, j :: 0 <= i < j < |keys| ==> Name(keys[i]) != Name(keys[j])
  }

  ghost predicate NamesIn(keys: seq<string>, name: string) {
    exists k :: k in keys && Name(k) == name
  }

  lemma {:induction false} ApartCons(k: string, keys: seq<string>)
    requires Apart(keys) && !NamesIn(keys, Name(k))
    ensures Apart([k] + keys)
  {
    forall i, j | 0 <= i < j < |[k] + keys| ensures Name(([k] + keys)[i]) != Name(([k] + keys)[j]) {
      assert ([k] + keys)[j] == keys[j - 1] && keys[j - 1] in keys;
    }
  }

  lemma {:induction false} ApartTail(k: string, keys: seq<string>)
    requires Apart([k] + keys)
    ensures Apart(keys) && !NamesIn(keys, Name(k))
  {
    var all := [k] + keys;
    forall i, j | 0 <= i < j < |keys| ensures Name(keys[i]) != Name(keys[j]) {
      assert all[i + 1] == keys[i] && all[j + 1] == keys[j];
    }
    forall x | x in keys ensures Name(x) != Name(k) {
      var i :| 0 <= i < |keys| && keys[i] == x;
      assert all[i + 1] == x && all[0] == k;
    }
  }

  lemma {:induction false} ApartJoin(a: seq<string>, b: seq<string>)
    requires Apart(a) && Apart(b) && forall x | x in a :: !NamesIn(b, Name(x))
    ensures Apart(a + b)
  {
    forall i, j | 0 <= i < j < |a + b| ensures Name((a + b)[i]) != Name((a + b)[j]) {
      if i < |a| <= j {
        assert a[i] in a && b[j - |a|] in b;
      }
    }
  }

  lemma {:induction false} ApartSplit(a: seq<string>, b: seq<string>)
    requires Apart(a + b)
    ensures Apart(a) && Apart(b) && forall x | x in a :: !NamesIn(b, Name(x))
  {
    var all := a + b;
    assert forall i | 0 <= i < |a| :: all[i] == a[i];
    assert forall i | 0 <= i < |b| :: all[|a| + i] == b[i];
    forall x, y | x in a && y in b ensures Name(x) != Name(y) {
      var i :| 0 <= i < |a| && a[i] == x;
      var j :| 0 <= j < |b| && b[j] == y;
      assert all[i] == x && all[|a| + j] == y;
    }
  }

  /** Settings that stay keep their names. */
  lemma {:induction false} KeptNames(body: File, o: seq<Setting>, name: string)
    requires Settings(o) && NamesIn(Keys(Kept(body, o)), name)
    ensures NamesIn(Keys(body), name) && Seen(body, name)
  {
    var k :| k in Keys(Kept(body, o)) && Name(k) == name;
    KeptKeys(body, o, k);
    var l :| l in body && Stays(l.text, o) && k == Render(Name(l.text), Wanted(o, Name(l.text)).text);
    WantedIsBare(o, Name(l.text));
    RenderIsKey(Name(l.text), Wanted(o, Name(l.text)).text);
    InKeys(body, l.text);
  }

  lemma {:induction false} KeptApart(body: File, o: seq<Setting>)
    requires Settings(o) && Apart(Keys(body))
    ensures Apart(Keys(Kept(body, o)))
    decreases |body|
  {
    if body != [] {
      var l := body[0];
      KeysAppend(KeptLine(l, o), Kept(body[1..], o));
      KeptLineKeys(l, o);
      if IsKey(l.text) {
        ApartTail(l.text, Keys(body[1..]));
        KeptApart(body[1..], o);
        if Stays(l.text, o) {
          var name := Name(l.text);
          WantedIsBare(o, name);
          RenderIsKey(name, Wanted(o, name).text);
          if NamesIn(Keys(Kept(body[1..], o)), name) { KeptNames(body[1..], o, name); }
          ApartCons(Render(name, Wanted(o, name).text), Keys(Kept(body[1..], o)));
        } else {
          assert [] + Keys(Kept(body[1..], o)) == Keys(Kept(body[1..], o));
        }
      } else {
        assert [] + Keys(body[1..]) == Keys(body[1..]);
        KeptApart(body[1..], o);
        assert [] + Keys(Kept(body[1..], o)) == Keys(Kept(body[1..], o));
      }
    }
  }

  ghost predicate DistinctKeys(o: seq<Setting>) {
    forall i, j :: 0 <= i < j < |o| ==> o[i].key != o[j].key
  }

  lemma {:induction false} DistinctCons(s: Setting, o: seq<Setting>)
    requires DistinctKeys(o) && forall x | x in o :: x.key != s.key
    ensures DistinctKeys([s] + o)
  {
    forall i, j | 0 <= i < j < |[s] + o| ensures ([s] + o)[i].key != ([s] + o)[j].key {
      assert ([s] + o)[j] == o[j - 1] && o[j - 1] in o;
    }
  }

  lemma {:induction false} DistinctTail(o: seq<Setting>)
    requires DistinctKeys(o) && o != []
    ensures DistinctKeys(o[1..]) && forall x | x in o[1..] :: x.key != o[0].key
  {
    assert forall i | 0 <= i < |o[1..]| :: o[1..][i] == o[i + 1];
  }

  lemma {:induction false} InsertDistinct(s: Setting, o: seq<Setting>)
    requires DistinctKeys(o) && forall x | x in o :: x.key != s.key
    ensures DistinctKeys(Insert(s, o))
    decreases |o|
  {
    if o == [] || AtMost(s.key, o[0].key) {
      DistinctCons(s, o);
      assert o == [] ==> [s] + o == [s];
    } else {
      assert o == [o[0]] + o[1..];
      DistinctTail(o);
      InsertDistinct(s, o[1..]);
      InsertHas(s, o[1..]);
      DistinctCons(o[0], Insert(s, o[1..]));
    }
  }

  lemma {:induction false} OrderedDistinct(o: seq<Setting>)
    requires DistinctKeys(o)
    ensures DistinctKeys(Ordered(o))
    decreases |o|
  {
    if o != [] {
      var s, rest := o[0], Ordered(o[1..]);
      DistinctTail(o);
      OrderedDistinct(o[1..]);
      OrderedHas(o[1..]);
      if s.key == "kind" {
        DistinctCons(s, rest);
      } else if rest != [] && rest[0].key == "kind" {
        DistinctTail(rest);
        assert rest == [rest[0]] + rest[1..];
        InsertDistinct(s, rest[1..]);
        InsertHas(s, rest[1..]);
        DistinctCons(rest[0], Insert(s, rest[1..]));
      } else {
        InsertDistinct(s, rest);
      }
    }
  }

  lemma {:induction false} AddedNames(body: File, ordered: seq<Setting>, name: string)
    requires (forall s | s in ordered :: Bare(s.key)) && NamesIn(Keys(Added(body, ordered)), name)
    ensures !Seen(body, name) && exists s :: s in ordered && s.key == name
  {
    var k :| k in Keys(Added(body, ordered)) && Name(k) == name;
    AddedKeys(body, ordered, k);
    var s :| s in ordered && s.value.Given? && !Seen(body, s.key) && k == Render(s.key, s.value.text);
    RenderIsKey(s.key, s.value.text);
  }

  lemma {:induction false} AddedApart(body: File, ordered: seq<Setting>)
    requires (forall s | s in ordered :: Bare(s.key)) && DistinctKeys(ordered)
    ensures Apart(Keys(Added(body, ordered)))
    decreases |ordered|
  {
    if ordered != [] {
      var s := ordered[0];
      assert s in ordered && forall x | x in ordered[1..] :: x in ordered;
      DistinctTail(ordered);
      AddedApart(body, ordered[1..]);
      KeysAppend(AddedLine(body, s), Added(body, ordered[1..]));
      if s.value.Given? && !Seen(body, s.key) {
        RenderIsKey(s.key, s.value.text);
        One(Line(Render(s.key, s.value.text), true));
        if NamesIn(Keys(Added(body, ordered[1..])), s.key) { AddedNames(body, ordered[1..], s.key); }
        ApartCons(Render(s.key, s.value.text), Keys(Added(body, ordered[1..])));
      } else {
        assert [] + Keys(Added(body, ordered[1..])) == Keys(Added(body, ordered[1..]));
      }
    }
  }

  lemma {:induction false} ApartThree(a: seq<string>, added: seq<string>, b: seq<string>)
    requires Apart(a + b) && Apart(added) && forall x | x in added :: !NamesIn(a + b, Name(x))
    ensures Apart(a + added + b)
  {
    ApartSplit(a, b);
    forall x, y | x in a + b && y in added ensures Name(x) != Name(y) { assert !NamesIn(a + b, Name(y)); }
    assert forall x | x in a :: x in a + b;
    ApartJoin(a, added);
    assert forall y | y in b :: y in a + b;
    ApartJoin(a + added, b);
  }

  /** A table that names each setting once still does after the rewrite. */
  lemma {:induction false} EachOnce(block: File, o: seq<Setting>)
    requires block != [] && Settings(o) && !IsKey(block[0].text) && Apart(Keys(block[1..]))
    ensures Apart(Keys(Merge(block, o)))
  {
    var body, p := block[1..], PartsOf(block, o);
    MergeKeys(block, o);
    FrontBackKeys(block, o);
    KeptApart(body, o);
    OrderedBare(o);
    OrderedDistinct(o);
    AddedApart(body, Ordered(o));
    forall x | x in Keys(p.added) ensures !NamesIn(Keys(p.front) + Keys(p.back), Name(x)) {
      assert NamesIn(Keys(p.added), Name(x));
      AddedNames(body, Ordered(o), Name(x));
      if NamesIn(Keys(Kept(body, o)), Name(x)) { KeptNames(body, o, Name(x)); }
    }
    ApartThree(Keys(p.front), Keys(p.added), Keys(p.back));
  }

  // ---------------------------------------------------------------- writing twice

  /** The settings read as written, and none that is wanted is missing. */
  ghost predicate Settled(keys: seq<string>, o: seq<Setting>) {
    && (forall k | k in keys :: Wanted(o, Name(k)).Given? && k == Render(Name(k), Wanted(o, Name(k)).text))
    && (forall s | s in o && s.value.Given? :: exists k :: k in keys && Name(k) == s.key)
  }

  lemma {:induction false} MergeSettles(block: File, o: seq<Setting>)
    requires block != [] && Settings(o) && !IsKey(block[0].text)
    ensures Settled(Keys(Merge(block, o)), o)
  {
    var keys := Keys(Merge(block, o));
    forall k | k in keys ensures Wanted(o, Name(k)).Given? && k == Render(Name(k), Wanted(o, Name(k)).text) {
      SettingsExact(block, o, k);
      WrittenIs(o, k);
    }
    forall s | s in o && s.value.Given? ensures exists k :: k in keys && Name(k) == s.key {
      var k := Render(s.key, s.value.text);
      SettingsExact(block, o, k);
      WantedIs(o, s);
      WantedIsBare(o, s.key);
      RenderIsKey(s.key, s.value.text);
    }
  }

  lemma {:induction false} SettledKept(body: File, o: seq<Setting>)
    requires forall l | l in body && IsKey(l.text) :: Wanted(o, Name(l.text)).Given? && l.text == Render(Name(l.text), Wanted(o, Name(l.text)).text)
    ensures Kept(body, o) == body
    decreases |body|
  {
    if body != [] {
      assert forall l | l in body[1..] :: l in body;
      SettledKept(body[1..], o);
      assert body[0] in body;
      assert KeptLine(body[0], o) == [body[0]];
    }
  }

  lemma {:induction false} NothingToAdd(body: File, ordered: seq<Setting>)
    requires forall s | s in ordered && s.value.Given? :: Seen(body, s.key)
    ensures Added(body, ordered) == []
    decreases |ordered|
  {
    if ordered != [] {
      assert ordered[0] in ordered && forall s | s in ordered[1..] :: s in ordered;
      NothingToAdd(body, ordered[1..]);
    }
  }

  lemma {:induction false} SettledBody(body: File, o: seq<Setting>)
    requires Settled(Keys(body), o)
    ensures Kept(body, o) == body && Added(body, Ordered(o)) == []
  {
    forall l | l in body && IsKey(l.text)
      ensures Wanted(o, Name(l.text)).Given? && l.text == Render(Name(l.text), Wanted(o, Name(l.text)).text)
    {
      InKeys(body, l.text);
    }
    SettledKept(body, o);
    OrderedHas(o);
    forall s | s in Ordered(o) && s.value.Given? ensures Seen(body, s.key) {
      var k :| k in Keys(body) && Name(k) == s.key;
      InKeys(body, k);
    }
    NothingToAdd(body, Ordered(o));
  }

  lemma {:induction false} Glue(head: File, a: File, b: File)
    ensures head + a + [] + b == head + (a + b)
  {
  }

  lemma {:induction false} NoneAdded(block: File, o: seq<Setting>)
    requires block != [] && Added(block[1..], Ordered(o)) == []
    ensures Merge(block, o) == [block[0]] + Kept(block[1..], o)
  {
    var n := LastStays(block[1..], o);
    KeptSplit(block[1..], n, o);
    Glue([block[0]], Kept(block[1..][..n], o), Kept(block[1..][n..], o));
  }

  /** A table that is settled is left as it is. */
  lemma {:induction false} SettledStays(block: File, o: seq<Setting>)
    requires block != [] && Settled(Keys(block[1..]), o)
    ensures Merge(block, o) == block
  {
    SettledBody(block[1..], o);
    NoneAdded(block, o);
    assert block == [block[0]] + block[1..];
  }

  // ---------------------------------------------------------------- the whole file

  function FormatBlock(alias: string, o: seq<Setting>): File {
    [Line("[" + alias + "]", true)] + Added([], Ordered(o))
  }

  /** An empty line between the file and a table added at its end. */
  function Separator(f: File): File {
    if f == [] then []
    else if !f[|f| - 1].ended then [Line("", true), Line("", true)]
    else if |f| > 1 && f[|f| - 1].text == "" then []
    else [Line("", true)]
  }

  /** `write_block`. */
  function Write(f: File, alias: string, o: seq<Setting>): File {
    var h := Start(f, alias);
    if h == |f| then Cat(Cat(f, Separator(f)), FormatBlock(alias, o))
    else
      var cut := Span(f, h);
      SpanHasHeader(f, h);
      Cat(Cat(f[..h], Merge(cut.block, o)), cut.rest)
  }

  lemma {:induction false} SpanHasHeader(f: File, h: nat)
    requires h < |f|
    ensures Span(f, h).block != []
  {
  }

  /** The texts of the lines that are not empty. */
  function Texts(f: File): seq<string> {
    if f == [] then [] else LoudPart(f[0].text) + Texts(f[1..])
  }

  function LoudPart(s: string): seq<string> {
    if Empty(s) then [] else [s]
  }

  lemma {:induction false} TextsAppend(a: File, b: File)
    ensures Texts(a + b) == Texts(a) + Texts(b)
    decreases |a|
  {
    if a == [] {
      assert a + b == b;
    } else {
      TextsAppend(a[1..], b);
      Unnest(a, b);
      Group(LoudPart(a[0].text), Texts(a[1..]), Texts(b));
    }
  }

  lemma {:induction false} OneText(l: Line)
    ensures Texts([l]) == if Empty(l.text) then [] else [l.text]
  {
    assert [l][1..] == [];
  }

  /** Nothing but line ends and empty lines comes of joining the two. */
  ghost predicate Fits(a: File, b: File) {
    a != [] && b != [] && !a[|a| - 1].ended ==> b[0].text == ""
  }

  lemma {:induction false} GlueTexts(x: File, last: Line, first: Line, y: File)
    requires first.text == ""
    ensures Texts(x + [Line(last.text + first.text, first.ended)] + y) == Texts(x + [last]) + Texts([first] + y)
  {
    var l := Line(last.text + first.text, first.ended);
    assert last.text + "" == last.text;
    TextsAppend(x + [l], y);
    TextsAppend(x, [l]);
    TextsAppend(x, [last]);
    TextsAppend([first], y);
    OneText(l);
    OneText(last);
    OneText(first);
    Group(Texts(x), Texts([last]), Texts(y));
    assert [] + Texts(y) == Texts(y);
  }

  lemma {:induction false} CatTexts(a: File, b: File)
    requires Fits(a, b)
    ensures Texts(Cat(a, b)) == Texts(a) + Texts(b)
  {
    if a != [] && !a[|a| - 1].ended && b != [] {
      var n := |a| - 1;
      assert a == a[..n] + [a[n]] && b == [b[0]] + b[1..];
      GlueTexts(a[..n], a[n], b[0], b[1..]);
    } else {
      TextsAppend(a, b);
    }
  }

  // ---------------------------------------------------------------- tables of a file, by their texts

  /** A setting under the header above it, "" at the start. */
  datatype Entry = Entry(header: string, text: string)

  function Entries(t: seq<string>, header: string): seq<Entry> {
    if t == [] then []
    else if IsHeader(t[0]) then Entries(t[1..], t[0])
    else EntryPart(t[0], header) + Entries(t[1..], header)
  }

  function EntryPart(s: string, header: string): seq<Entry> {
    if IsKey(s) then [Entry(header, s)] else []
  }

  function LastHeader(t: seq<string>, header: string): string {
    if t == [] then header else LastHeader(t[1..], if IsHeader(t[0]) then t[0] else header)
  }

  /** The entries of tables other than the alias's. */
  function Elsewhere(e: seq<Entry>, alias: string): seq<Entry> {
    if e == [] then [] else (if Opens(e[0].header, alias) then [] else [e[0]]) + Elsewhere(e[1..], alias)
  }

  lemma {:induction false} EntriesAppend(a: seq<string>, b: seq<string>, header: string)
    ensures Entries(a + b, header) == Entries(a, header) + Entries(b, LastHeader(a, header))
    decreases |a|
  {
    if a == [] {
      assert a + b == b;
    } else {
      var next := if IsHeader(a[0]) then a[0] else header;
      EntriesAppend(a[1..], b, next);
      Unnest(a, b);
      Group(EntryPart(a[0], header), Entries(a[1..], header), Entries(b, LastHeader(a[1..], header)));
    }
  }

  lemma {:induction false} LastHeaderAppend(a: seq<string>, b: seq<string>, header: string)
    ensures LastHeader(a + b, header) == LastHeader(b, LastHeader(a, header))
    decreases |a|
  {
    if a == [] {
      assert a + b == b;
    } else {
      LastHeaderAppend(a[1..], b, if IsHeader(a[0]) then a[0] else header);
      assert (a + b)[1..] == a[1..] + b && (a + b)[0] == a[0];
    }
  }

  lemma {:induction false} ElsewhereAppend(a: seq<Entry>, b: seq<Entry>, alias: string)
    ensures Elsewhere(a + b, alias) == Elsewhere(a, alias) + Elsewhere(b, alias)
    decreases |a|
  {
    if a == [] {
      assert a + b == b;
    } else {
      ElsewhereAppend(a[1..], b, alias);
      assert (a + b)[1..] == a[1..] + b && (a + b)[0] == a[0];
    }
  }

  ghost predicate NoHeaders(t: seq<string>) {
    forall k | k in t :: !IsHeader(k)
  }

  /** Lines without a header among them, under the alias's header, are no other table's. */
  lemma {:induction false} OwnEntries(t: seq<string>, header: string, alias: string)
    requires NoHeaders(t) && Opens(header, alias)
    ensures Elsewhere(Entries(t, header), alias) == [] && LastHeader(t, header) == header
    decreases |t|
  {
    if t != [] {
      assert t[0] in t && forall k | k in t[1..] :: k in t;
      OwnEntries(t[1..], header, alias);
      var first := if IsKey(t[0]) then [Entry(header, t[0])] else [];
      ElsewhereAppend(first, Entries(t[1..], header), alias);
      assert first != [] ==> first[1..] == [];
    }
  }

  /** Replacing the lines under the alias's header changes no other table's settings. */
  lemma {:induction false} OthersUnchanged(pre: seq<string>, header: string, before: seq<string>, after: seq<string>, post: seq<string>, alias: string)
    requires Opens(header, alias) && NoHeaders(before) && NoHeaders(after)
    ensures Elsewhere(Entries(pre + [header] + after + post, ""), alias)
            == Elsewhere(Entries(pre + [header] + before + post, ""), alias)
  {
    Table(pre, header, before, post, alias);
    Table(pre, header, after, post, alias);
  }

  lemma {:induction false} TableEntries(pre: seq<string>, header: string, own: seq<string>, post: seq<string>, alias: string)
    requires IsHeader(header)
    ensures Entries(pre + [header] + own + post, "")
            == Entries(pre, "") + Entries(own, header) + Entries(post, LastHeader(own, header))
  {
    var start := pre + [header];
    EntriesAppend(start + own, post, "");
    EntriesAppend(start, own, "");
    EntriesAppend(pre, [header], "");
    LastHeaderAppend(start, own, "");
    LastHeaderAppend(pre, [header], "");
    OnlyHeader(header, LastHeader(pre, ""));
    assert Entries(pre, "") + [] == Entries(pre, "");
  }

  lemma {:induction false} Table(pre: seq<string>, header: string, own: seq<string>, post: seq<string>, alias: string)
    requires Opens(header, alias) && NoHeaders(own)
    ensures Elsewhere(Entries(pre + [header] + own + post, ""), alias)
            == Elsewhere(Entries(pre, ""), alias) + Elsewhere(Entries(post, header), alias)
  {
    TableEntries(pre, header, own, post, alias);
    OwnEntries(own, header, alias);
    ElsewhereAppend(Entries(pre, "") + Entries(own, header), Entries(post, header), alias);
    ElsewhereAppend(Entries(pre, ""), Entries(own, header), alias);
    assert Elsewhere(Entries(pre, ""), alias) + [] == Elsewhere(Entries(pre, ""), alias);
  }

  lemma {:induction false} OnlyHeader(header: string, at: string)
    requires IsHeader(header)
    ensures Entries([header], at) == [] && LastHeader([header], at) == header
  {
    assert [header][1..] == [];
  }

  // ---------------------------------------------------------------- the alias's own table

  function KeysOf(t: seq<string>): seq<string> {
    if t == [] then [] else KeyPart(t[0]) + KeysOf(t[1..])
  }

  /** The settings above the first header. */
  function OwnKeys(t: seq<string>): seq<string> {
    if t == [] || IsHeader(t[0]) then [] else KeyPart(t[0]) + OwnKeys(t[1..])
  }

  /** The settings of the first table the alias opens. */
  function FirstKeys(t: seq<string>, alias: string): seq<string> {
    if t == [] then [] else if Opens(t[0], alias) then OwnKeys(t[1..]) else FirstKeys(t[1..], alias)
  }

  lemma {:induction false} KeysOfTexts(f: File)
    ensures KeysOf(Texts(f)) == Keys(f)
    decreases |f|
  {
    if f != [] {
      KeysOfTexts(f[1..]);
      if Empty(f[0].text) {
        assert [] + Keys(f[1..]) == Keys(f[1..]) && [] + Texts(f[1..]) == Texts(f[1..]);
      } else {
        var t := [f[0].text] + Texts(f[1..]);
        assert t[1..] == Texts(f[1..]) && t[0] == f[0].text;
      }
    }
  }

  lemma {:induction false} OwnKeysAppend(a: seq<string>, b: seq<string>)
    requires NoHeaders(a)
    ensures OwnKeys(a + b) == KeysOf(a) + OwnKeys(b)
    decreases |a|
  {
    if a == [] {
      assert a + b == b;
    } else {
      assert a[0] in a && forall k | k in a[1..] :: k in a;
      OwnKeysAppend(a[1..], b);
      Unnest(a, b);
      Group(KeyPart(a[0]), KeysOf(a[1..]), OwnKeys(b));
    }
  }

  lemma {:induction false} FirstKeysAt(pre: seq<string>, header: string, post: seq<string>, alias: string)
    requires Opens(header, alias) && forall k | k in pre :: !Opens(k, alias)
    ensures FirstKeys(pre + [header] + post, alias) == OwnKeys(post)
    decreases |pre|
  {
    var t := pre + [header] + post;
    if pre == [] {
      assert t[1..] == post && t[0] == header;
    } else {
      assert pre[0] in pre && forall k | k in pre[1..] :: k in pre;
      FirstKeysAt(pre[1..], header, post, alias);
      assert t[1..] == pre[1..] + [header] + post && t[0] == pre[0];
    }
  }

  lemma {:induction false} FromLine(f: File, k: string)
    requires k in Texts(f)
    ensures exists l :: l in f && l.text == k
    decreases |f|
  {
    assert f == [f[0]] + f[1..];
    if k in Texts(f[1..]) {
      FromLine(f[1..], k);
    } else {
      assert f[0] in f && f[0].text == k;
    }
  }

  lemma {:induction false} HeaderIsLoud(s: string)
    requires IsHeader(s)
    ensures !Empty(s) && !Quiet(s)
  {
    StripKeepsStart(s, 1);
  }

  lemma {:induction false} OpensIsHeader(s: string, alias: string)
    requires Opens(s, alias)
    ensures IsHeader(s)
  {
    assert ("[" + alias + "]")[0] == s[0];
  }

  lemma {:induction false} StripIn(s: string, c: char)
    ensures c in Strip(s) ==> c in s
    decreases |s|
  {
    if s != "" {
      if Blank(s[0]) {
        StripIn(s[1..], c);
        assert s == [s[0]] + s[1..];
      } else if Blank(s[|s| - 1]) {
        StripIn(s[..|s| - 1], c);
      }
    }
  }

  lemma {:induction false} HeaderIsNoKey(s: string, alias: string)
    requires Opens(s, alias) && '=' !in alias
    ensures !IsKey(s)
  {
    var head := "[" + alias + "]";
    assert forall i | 0 <= i < |head| :: s[i] == head[i];
    StripIn(s, '=');
    forall i | 0 <= i < |s| ensures s[i] != '=' {
      if 0 < i < |head| - 1 { assert head[i] == alias[i - 1]; }
    }
  }

  // ---------------------------------------------------------------- the span by its texts

  lemma {:induction false} HeadText(block: File)
    requires block != [] && IsHeader(block[0].text)
    ensures Texts(block) == [block[0].text] + Texts(block[1..])
  {
    HeaderIsLoud(block[0].text);
  }

  lemma {:induction false} QuietRun(f: File, i: nat, t: nat)
    requires i <= t <= |f| && (t < |f| ==> IsHeader(f[t].text)) && forall k | i <= k < t :: Quiet(f[k].text)
    ensures OwnKeys(Texts(f[i..])) == []
    decreases t - i
  {
    if i < |f| {
      assert f[i..][1..] == f[i + 1..] && f[i..][0] == f[i];
      if i < t {
        QuietRun(f, i + 1, t);
        OneOwn(f[i].text, Texts(f[i + 1..]));
        assert [] + Texts(f[i + 1..]) == Texts(f[i + 1..]);
      } else {
        HeadText(f[t..]);
        assert Texts(f[t..])[0] == f[t].text;
      }
    } else {
      assert f[i..] == [];
    }
  }

  lemma {:induction false} OneOwn(s: string, t: seq<string>)
    requires Quiet(s) && OwnKeys(t) == []
    ensures OwnKeys([s] + t) == []
  {
    assert ([s] + t)[1..] == t;
  }

  /** What follows the table has no setting before its first header. */
  lemma {:induction false} RestIsOther(f: File, h: nat)
    requires h < |f|
    ensures OwnKeys(Texts(Span(f, h).rest)) == []
  {
    var t := NextHeader(f, h + 1);
    if t < |f| {
      var m := LastLoud(f, h + 1, t);
      if m > h + 1 {
        QuietRun(f, m, t);
      } else {
        var q := SkipEmpty(f, h + 1, t);
        QuietRun(f, q, t);
        var first := Line("", f[q - 1].ended);
        TextsAppend([first], f[q..]);
        OneText(first);
        assert [] + Texts(f[q..]) == Texts(f[q..]);
      }
    }
  }

  lemma {:induction false} BlockLines(f: File, h: nat, i: nat)
    requires h < |f| && 0 < i < |Span(f, h).block|
    ensures h + i < |f| && Span(f, h).block[i].text == f[h + i].text && !IsHeader(f[h + i].text)
  {
  }

  lemma {:induction false} BlockHasNoHeaders(f: File, h: nat)
    requires h < |f|
    ensures forall l | l in Span(f, h).block[1..] :: !IsHeader(l.text)
  {
    var block := Span(f, h).block;
    forall l | l in block[1..] ensures !IsHeader(l.text) {
      var i :| 0 <= i < |block[1..]| && block[1..][i] == l;
      BlockLines(f, h, i + 1);
    }
  }

  lemma {:induction false} NoHeaderTexts(f: File)
    requires forall l | l in f :: !IsHeader(l.text)
    ensures NoHeaders(Texts(f))
  {
    forall k | k in Texts(f) ensures !IsHeader(k) { FromLine(f, k); }
  }

  lemma {:induction false} SpanFits(f: File, h: nat)
    requires h < |f| && Joined(f)
    ensures Fits(Span(f, h).block, Span(f, h).rest)
  {
  }

  lemma {:induction false} Regroup(x: seq<string>, y: seq<string>, z: seq<string>, w: seq<string>)
    ensures x + y + z + w == x + (y + z + w) && x + (y + z) + w == x + y + z + w
  {
  }

  lemma {:induction false} TableTexts(f: File, h: nat)
    requires h < |f| && Joined(f) && IsHeader(f[h].text)
    ensures Texts(f[h..]) == [f[h].text] + Texts(Span(f, h).block[1..]) + Texts(Span(f, h).rest)
  {
    SpanJoins(f, h);
    SpanFits(f, h);
    CatTexts(Span(f, h).block, Span(f, h).rest);
    HeadText(Span(f, h).block);
  }

  lemma {:induction false} TextsSplit(f: File, h: nat)
    requires h <= |f|
    ensures Texts(f) == Texts(f[..h]) + Texts(f[h..])
  {
    TextsAppend(f[..h], f[h..]);
    assert f == f[..h] + f[h..];
  }

  /** The file's texts around the table. */
  lemma {:induction false} FileTexts(f: File, h: nat)
    requires h < |f| && Joined(f) && IsHeader(f[h].text)
    ensures Texts(f) == Texts(f[..h]) + [f[h].text] + Texts(Span(f, h).block[1..]) + Texts(Span(f, h).rest)
  {
    TableTexts(f, h);
    TextsSplit(f, h);
    Regroup(Texts(f[..h]), [f[h].text], Texts(Span(f, h).block[1..]), Texts(Span(f, h).rest));
  }

  lemma {:induction false} NotOpened(f: File, h: nat, alias: string)
    requires h <= Start(f, alias)
    ensures forall k | k in Texts(f[..h]) :: !Opens(k, alias)
  {
    forall k | k in Texts(f[..h]) ensures !Opens(k, alias) {
      FromLine(f[..h], k);
      var l :| l in f[..h] && l.text == k;
      var i :| 0 <= i < h && f[i] == l;
    }
  }

  lemma {:induction false} BlockKeys(f: File, h: nat)
    requires h < |f|
    ensures OwnKeys(Texts(Span(f, h).block[1..]) + Texts(Span(f, h).rest)) == Keys(Span(f, h).block[1..])
  {
    BlockHasNoHeaders(f, h);
    NoHeaderTexts(Span(f, h).block[1..]);
    OwnKeysAppend(Texts(Span(f, h).block[1..]), Texts(Span(f, h).rest));
    RestIsOther(f, h);
    KeysOfTexts(Span(f, h).block[1..]);
    assert Keys(Span(f, h).block[1..]) + [] == Keys(Span(f, h).block[1..]);
  }

  /** The table the writer finds has the settings of the first table the alias opens. */
  lemma {:induction false} SpanKeys(f: File, alias: string)
    requires Joined(f) && Start(f, alias) < |f|
    ensures Keys(Span(f, Start(f, alias)).block[1..]) == FirstKeys(Texts(f), alias)
  {
    var h := Start(f, alias);
    var own, rest := Texts(Span(f, h).block[1..]), Texts(Span(f, h).rest);
    OpensIsHeader(f[h].text, alias);
    FileTexts(f, h);
    NotOpened(f, h, alias);
    FirstKeysAt(Texts(f[..h]), f[h].text, own + rest, alias);
    Group(Texts(f[..h]) + [f[h].text], own, rest);
    BlockKeys(f, h);
  }

  // ---------------------------------------------------------------- the written file by its texts

  lemma {:induction false} EndedTexts(f: File)
    ensures Texts(Ended(f)) == Texts(f)
  {
    if f != [] {
      var n := |f| - 1;
      TextsAppend(f[..n], [f[n]]);
      TextsAppend(f[..n], [Line(f[n].text, true)]);
      assert f == f[..n] + [f[n]];
      OneText(f[n]);
      OneText(Line(f[n].text, true));
    }
  }

  /** The rewritten table's texts under its header. */
  function Own(block: File, o: seq<Setting>): seq<string>
    requires block != []
  {
    var n := LastStays(block[1..], o);
    Texts(Kept(block[1..][..n], o)) + Texts(Added(block[1..], Ordered(o))) + Texts(Kept(block[1..][n..], o))
  }

  lemma {:induction false} ThreeTexts(a: File, b: File, c: File)
    ensures Texts(a + b + c) == Texts(a) + Texts(b) + Texts(c)
  {
    TextsAppend(a + b, c);
    TextsAppend(a, b);
  }

  lemma {:induction false} FrontTexts(head: Line, a: File)
    requires IsHeader(head.text)
    ensures Texts([head] + a) == [head.text] + Texts(a)
  {
    HeadText([head] + a);
    assert ([head] + a)[1..] == a;
  }

  lemma {:induction false} MergeTexts(block: File, o: seq<Setting>)
    requires block != [] && IsHeader(block[0].text)
    ensures Texts(Merge(block, o)) == [block[0].text] + Own(block, o)
  {
    var p := PartsOf(block, o);
    EndedTexts(p.front);
    ThreeTexts(if p.added == [] then p.front else Ended(p.front), p.added, p.back);
    var a := Kept(block[1..][..LastStays(block[1..], o)], o);
    FrontTexts(block[0], a);
    Regroup([block[0].text], Texts(a), Texts(p.added), Texts(p.back));
  }

  lemma {:induction false} KeptNoHeaders(body: File, o: seq<Setting>)
    requires Settings(o) && forall l | l in body :: !IsHeader(l.text)
    ensures forall l | l in Kept(body, o) :: !IsHeader(l.text)
    decreases |body|
  {
    if body != [] {
      assert body[0] in body && forall l | l in body[1..] :: l in body;
      KeptNoHeaders(body[1..], o);
      if Stays(body[0].text, o) {
        var name := Name(body[0].text);
        WantedIsBare(o, name);
        RenderIsKey(name, Wanted(o, name).text);
      }
    }
  }

  lemma {:induction false} AddedNoHeaders(body: File, ordered: seq<Setting>)
    requires forall s | s in ordered :: Bare(s.key)
    ensures forall l | l in Added(body, ordered) :: !IsHeader(l.text)
    decreases |ordered|
  {
    if ordered != [] {
      assert ordered[0] in ordered && forall s | s in ordered[1..] :: s in ordered;
      AddedNoHeaders(body, ordered[1..]);
      if ordered[0].value.Given? { RenderIsKey(ordered[0].key, ordered[0].value.text); }
    }
  }

  lemma {:induction false} OwnNoHeaders(block: File, o: seq<Setting>)
    requires block != [] && Settings(o) && forall l | l in block[1..] :: !IsHeader(l.text)
    ensures NoHeaders(Own(block, o))
  {
    var body := block[1..];
    var n := LastStays(body, o);
    assert (forall l | l in body[..n] :: l in body) && (forall l | l in body[n..] :: l in body);
    KeptNoHeaders(body[..n], o);
    KeptNoHeaders(body[n..], o);
    OrderedBare(o);
    AddedNoHeaders(body, Ordered(o));
    NoHeaderTexts(Kept(body[..n], o));
    NoHeaderTexts(Added(body, Ordered(o)));
    NoHeaderTexts(Kept(body[n..], o));
  }

  lemma {:induction false} OwnKeysExact(block: File, o: seq<Setting>, k: string)
    requires block != [] && Settings(o) && IsHeader(block[0].text) && !IsKey(block[0].text)
    ensures k in KeysOf(Own(block, o)) <==> Written(o, k)
  {
    MergeTexts(block, o);
    KeysOfTexts(Merge(block, o));
    SettingsExact(block, o, k);
    var t := [block[0].text] + Own(block, o);
    assert t[1..] == Own(block, o);
    assert KeysOf(t) == [] + KeysOf(Own(block, o));
  }

  lemma {:induction false} KeptEnded(body: File, o: seq<Setting>)
    requires forall l | l in body :: l.ended
    ensures forall l | l in Kept(body, o) :: l.ended
    decreases |body|
  {
    if body != [] {
      assert body[0] in body && forall l | l in body[1..] :: l in body;
      KeptEnded(body[1..], o);
    }
  }

  /** Every line of the file is ended. */
  ghost predicate AllEnded(f: File) {
    forall l | l in f :: l.ended
  }

  lemma {:induction false} JoinedLast(f: File)
    requires Joined(f) && (f != [] ==> f[|f| - 1].ended)
    ensures AllEnded(f)
  {
  }

  lemma {:induction false} KeptJoined(body: File, o: seq<Setting>)
    requires Joined(body)
    ensures Joined(Kept(body, o))
    ensures Kept(body, o) != [] && !Kept(body, o)[|Kept(body, o)| - 1].ended ==> body != [] && !body[|body| - 1].ended
  {
    if body != [] {
      var n := |body| - 1;
      forall l | l in body[..n] ensures l.ended {}
      KeptEnded(body[..n], o);
      KeptAppend(body[..n], [body[n]], o);
      assert body == body[..n] + [body[n]];
      assert Kept([body[n]], o) == KeptLine(body[n], o) + [];
    }
  }

  lemma {:induction false} EndedAll(f: File)
    requires Joined(f)
    ensures AllEnded(Ended(f))
  {
  }

  lemma {:induction false} EndedJoined(a: File, b: File)
    requires AllEnded(a) && Joined(b)
    ensures Joined(a + b)
  {
    forall i | 0 <= i < |a + b| - 1 ensures (a + b)[i].ended {
      if i < |a| { assert a[i] in a; }
    }
  }

  lemma {:induction false} BothEnded(a: File, b: File)
    requires AllEnded(a) && AllEnded(b)
    ensures AllEnded(a + b) && Joined(a + b)
  {
    forall i | 0 <= i < |a + b| ensures (a + b)[i].ended {
      if i < |a| { assert a[i] in a; } else { assert b[i - |a|] in b; }
    }
  }

  /** The parts fit: the front is ended when something stays behind it, or it ends as the table did. */
  ghost predicate PartsFit(p: Parts, block: File)
    requires block != []
  {
    && p.front != [] && Joined(p.front) && Joined(p.back) && AllEnded(p.added)
    && (p.back != [] ==> AllEnded(p.front) && (!p.back[|p.back| - 1].ended ==> !block[|block| - 1].ended))
    && (p.back == [] && !p.front[|p.front| - 1].ended ==> !block[|block| - 1].ended)
  }

  lemma {:induction false} TailJoined(block: File)
    requires block != [] && Joined(block)
    ensures Joined(block[1..])
  {
    forall i | 0 <= i < |block[1..]| - 1 ensures block[1..][i].ended { assert block[1..][i] == block[i + 1]; }
  }

  /** With lines behind it the front is ended. */
  lemma {:induction false} FrontEnded(block: File, n: nat, o: seq<Setting>)
    requires n + 1 < |block| && Joined(block)
    ensures AllEnded([block[0]] + Kept(block[1..][..n], o))
  {
    var body := block[1..];
    forall l | l in body[..n] ensures l.ended {
      var i :| 0 <= i < n && body[i] == l;
      assert block[i + 1] == l;
    }
    KeptEnded(body[..n], o);
    BothEnded([block[0]], Kept(body[..n], o));
  }

  lemma {:induction false} FrontFits(block: File, n: nat, o: seq<Setting>)
    requires n < |block| && Joined(block)
    ensures var front := [block[0]] + Kept(block[1..][..n], o);
            && Joined(front) && (n + 1 < |block| ==> AllEnded(front))
            && (!front[|front| - 1].ended ==> !block[|block| - 1].ended)
  {
    if n + 1 < |block| {
      FrontEnded(block, n, o);
      var front := [block[0]] + Kept(block[1..][..n], o);
      assert front[|front| - 1] in front;
    } else {
      assert block[1..][..n] == block[1..];
      WholeFront(block, o);
    }
  }

  lemma {:induction false} WholeFront(block: File, o: seq<Setting>)
    requires block != [] && Joined(block)
    ensures var front := [block[0]] + Kept(block[1..], o);
            Joined(front) && (!front[|front| - 1].ended ==> !block[|block| - 1].ended)
  {
    TailJoined(block);
    KeptJoined(block[1..], o);
    if block[1..] != [] { EndedJoined([block[0]], Kept(block[1..], o)); }
  }

  lemma {:induction false} BackFits(block: File, n: nat, o: seq<Setting>)
    requires n < |block| && Joined(block)
    ensures var back := Kept(block[1..][n..], o);
            Joined(back) && (back != [] ==> n + 1 < |block| && (!back[|back| - 1].ended ==> !block[|block| - 1].ended))
  {
    TailJoined(block);
    KeptJoined(block[1..][n..], o);
  }

  lemma {:induction false} FrontJoined(block: File, o: seq<Setting>)
    requires block != [] && Joined(block)
    ensures PartsFit(PartsOf(block, o), block)
  {
    var n := LastStays(block[1..], o);
    FrontFits(block, n, o);
    BackFits(block, n, o);
  }

  lemma {:induction false} PartsJoined(p: Parts, block: File)
    requires block != [] && PartsFit(p, block)
    ensures var m := (if p.added == [] then p.front else Ended(p.front)) + p.added + p.back;
            Joined(m) && m != [] && (!m[|m| - 1].ended ==> !block[|block| - 1].ended)
  {
    if p.added == [] {
      assert p.front + p.added == p.front;
      if p.back == [] { assert p.front + p.back == p.front; } else { EndedJoined(p.front, p.back); }
    } else {
      EndedAll(p.front);
      BothEnded(Ended(p.front), p.added);
      EndedJoined(Ended(p.front) + p.added, p.back);
      assert p.added[|p.added| - 1] in p.added;
    }
  }

  lemma {:induction false} MergeJoined(block: File, o: seq<Setting>)
    requires block != [] && Joined(block)
    ensures Joined(Merge(block, o)) && Merge(block, o) != []
    ensures !Merge(block, o)[|Merge(block, o)| - 1].ended ==> !block[|block| - 1].ended
  {
    FrontJoined(block, o);
    PartsJoined(PartsOf(block, o), block);
  }

  lemma {:induction false} CatJoined(a: File, b: File)
    requires Joined(a) && Joined(b)
    ensures Joined(Cat(a, b))
    ensures b != [] && b[|b| - 1].ended ==> Cat(a, b) != [] && Cat(a, b)[|Cat(a, b)| - 1].ended
  {
  }

  lemma {:induction false} RestJoined(f: File, h: nat)
    requires h < |f| && Joined(f)
    ensures Joined(Span(f, h).rest)
  {
  }

  /** Three parts joined, the first ended. */
  lemma {:induction false} CatThree(pre: File, m: File, rest: File)
    requires Joined(pre) && Joined(m) && Joined(rest) && m != [] && Fits(pre, m) && Fits(m, rest)
    requires pre != [] && !pre[|pre| - 1].ended ==> |m| > 1 || m[0].ended
    ensures Texts(Cat(Cat(pre, m), rest)) == Texts(pre) + Texts(m) + Texts(rest) && Joined(Cat(Cat(pre, m), rest))
  {
    CatJoined(pre, m);
    CatTexts(pre, m);
    CatJoined(Cat(pre, m), rest);
    CatLast(pre, m);
    CatTexts(Cat(pre, m), rest);
  }

  lemma {:induction false} CatLast(pre: File, m: File)
    requires m != []
    ensures Cat(pre, m) != [] && Cat(pre, m)[|Cat(pre, m)| - 1].ended == m[|m| - 1].ended
  {
  }

  lemma {:induction false} MergedFits(block: File, rest: File, o: seq<Setting>)
    requires block != [] && Joined(block) && Fits(block, rest)
    ensures Joined(Merge(block, o)) && Merge(block, o) != [] && Fits(Merge(block, o), rest)
  {
    MergeJoined(block, o);
  }

  lemma {:induction false} EndedBefore(f: File, h: nat)
    requires Joined(f) && h < |f|
    ensures Joined(f[..h]) && AllEnded(f[..h])
  {
    JoinedLast(f[..h]);
  }

  lemma {:induction false} RewrittenFits(f: File, h: nat, o: seq<Setting>)
    requires Joined(f) && h < |f|
    ensures Span(f, h).block != [] && Joined(Merge(Span(f, h).block, o)) && Merge(Span(f, h).block, o) != []
    ensures Joined(f[..h]) && AllEnded(f[..h]) && Fits(Merge(Span(f, h).block, o), Span(f, h).rest)
  {
    SpanJoins(f, h);
    SpanFits(f, h);
    MergedFits(Span(f, h).block, Span(f, h).rest, o);
    EndedBefore(f, h);
  }

  /** What a write does to a file that has the table. */
  lemma {:induction false} RewrittenTexts(f: File, alias: string, o: seq<Setting>)
    requires Joined(f) && Settings(o) && Start(f, alias) < |f|
    ensures var h := Start(f, alias); var cut := Span(f, h);
            cut.block != [] && cut.block[0].text == f[h].text
            && Texts(Write(f, alias, o)) == Texts(f[..h]) + [f[h].text] + Own(cut.block, o) + Texts(cut.rest)
            && Joined(Write(f, alias, o))
  {
    var h := Start(f, alias);
    var cut := Span(f, h);
    RewrittenFits(f, h, o);
    RestJoined(f, h);
    var m := Merge(cut.block, o);
    assert h > 0 ==> f[h - 1] in f[..h];
    CatThree(f[..h], m, cut.rest);
    SpanHead(f, h);
    OpensIsHeader(f[h].text, alias);
    MergeTexts(cut.block, o);
    Regroup(Texts(f[..h]), [f[h].text], Own(cut.block, o), Texts(cut.rest));
  }

  lemma {:induction false} SpanHead(f: File, h: nat)
    requires h < |f| && Joined(f)
    ensures Span(f, h).block != [] && Span(f, h).block[0].text == f[h].text
  {
    SpanJoins(f, h);
  }

  lemma {:induction false} FormatTexts(alias: string, o: seq<Setting>)
    ensures Texts(FormatBlock(alias, o)) == ["[" + alias + "]"] + Texts(Added([], Ordered(o)))
    ensures Joined(FormatBlock(alias, o))
  {
    FrontTexts(Line("[" + alias + "]", true), Added([], Ordered(o)));
  }

  /** The separator is made of empty lines and ends the file before it. */
  lemma {:induction false} SeparatorIs(f: File)
    requires Joined(f)
    ensures Texts(Separator(f)) == [] && Joined(Separator(f)) && Fits(f, Separator(f)) && Joined(Cat(f, Separator(f)))
    ensures Texts(Cat(f, Separator(f))) == Texts(f)
    ensures Cat(f, Separator(f)) != [] ==> Cat(f, Separator(f))[|Cat(f, Separator(f))| - 1].ended
  {
    assert Texts([Line("", true)]) == [] && Texts([Line("", true), Line("", true)]) == [] by {
      OneText(Line("", true));
      TextsAppend([Line("", true)], [Line("", true)]);
      assert [Line("", true)] + [Line("", true)] == [Line("", true), Line("", true)];
    }
    CatJoined(f, Separator(f));
    CatTexts(f, Separator(f));
  }

  lemma {:induction false} Appended(base: File, block: File, header: string, own: seq<string>)
    requires Joined(base) && Joined(block) && (base != [] ==> base[|base| - 1].ended)
    requires Texts(block) == [header] + own
    ensures Texts(Cat(base, block)) == Texts(base) + [header] + own && Joined(Cat(base, block))
  {
    CatTexts(base, block);
    CatJoined(base, block);
    Group(Texts(base), [header], own);
  }

  /** What a write does to a file that has not. */
  lemma {:induction false} AppendedTexts(f: File, alias: string, o: seq<Setting>)
    requires Joined(f) && Start(f, alias) == |f|
    ensures Texts(Write(f, alias, o)) == Texts(f) + ["[" + alias + "]"] + Texts(Added([], Ordered(o)))
    ensures Joined(Write(f, alias, o))
  {
    SeparatorIs(f);
    FormatTexts(alias, o);
    Appended(Cat(f, Separator(f)), FormatBlock(alias, o), "[" + alias + "]", Texts(Added([], Ordered(o))));
  }

  // ---------------------------------------------------------------- a faithful local edit

  lemma {:induction false} AddedExact(o: seq<Setting>, k: string)
    requires Settings(o)
    ensures k in KeysOf(Texts(Added([], Ordered(o)))) <==> Written(o, k)
  {
    OrderedBare(o);
    OrderedHas(o);
    AddedKeys([], Ordered(o), k);
    KeysOfTexts(Added([], Ordered(o)));
  }

  /** After a write the alias's settings are exactly those given a value. */
  lemma {:induction false} OwnTable(f: File, alias: string, o: seq<Setting>, k: string)
    requires Joined(f) && Settings(o) && '=' !in alias
    ensures k in FirstKeys(Texts(Write(f, alias, o)), alias) <==> Written(o, k)
  {
    var h := Start(f, alias);
    if h < |f| {
      RewrittenTable(f, alias, o, k);
    } else {
      AppendedTexts(f, alias, o);
      var header, own := "[" + alias + "]", Texts(Added([], Ordered(o)));
      assert f[..h] == f;
      NotOpened(f, h, alias);
      FirstKeysAt(Texts(f), header, own, alias);
      OrderedBare(o);
      AddedNoHeaders([], Ordered(o));
      NoHeaderTexts(Added([], Ordered(o)));
      AllOwn(own);
      AddedExact(o, k);
    }
  }

  lemma {:induction false} AllOwn(t: seq<string>)
    requires NoHeaders(t)
    ensures OwnKeys(t) == KeysOf(t)
  {
    OwnKeysAppend(t, []);
    assert t + [] == t && KeysOf(t) + [] == KeysOf(t);
  }

  lemma {:induction false} RewrittenTable(f: File, alias: string, o: seq<Setting>, k: string)
    requires Joined(f) && Settings(o) && '=' !in alias && Start(f, alias) < |f|
    ensures k in FirstKeys(Texts(Write(f, alias, o)), alias) <==> Written(o, k)
  {
    var h := Start(f, alias);
    var cut := Span(f, h);
    RewrittenTexts(f, alias, o);
    NotOpened(f, h, alias);
    FirstKeysAt(Texts(f[..h]), f[h].text, Own(cut.block, o) + Texts(cut.rest), alias);
    Regroup(Texts(f[..h]), [f[h].text], Own(cut.block, o), Texts(cut.rest));
    Group(Texts(f[..h]) + [f[h].text], Own(cut.block, o), Texts(cut.rest));
    OpensIsHeader(f[h].text, alias);
    HeaderIsNoKey(f[h].text, alias);
    OwnPart(f, h, o);
    OwnKeysExact(cut.block, o, k);
  }

  lemma {:induction false} OwnPart(f: File, h: nat, o: seq<Setting>)
    requires Joined(f) && Settings(o) && h < |f| && Span(f, h).block != []
    ensures OwnKeys(Own(Span(f, h).block, o) + Texts(Span(f, h).rest)) == KeysOf(Own(Span(f, h).block, o))
    ensures NoHeaders(Own(Span(f, h).block, o))
  {
    BlockHasNoHeaders(f, h);
    OwnNoHeaders(Span(f, h).block, o);
    OwnKeysAppend(Own(Span(f, h).block, o), Texts(Span(f, h).rest));
    RestIsOther(f, h);
    assert KeysOf(Own(Span(f, h).block, o)) + [] == KeysOf(Own(Span(f, h).block, o));
  }

  /** A write changes no setting of any other table, nor their order. */
  lemma {:induction false} OtherTables(f: File, alias: string, o: seq<Setting>)
    requires Joined(f) && Settings(o)
    ensures Elsewhere(Entries(Texts(Write(f, alias, o)), ""), alias) == Elsewhere(Entries(Texts(f), ""), alias)
  {
    var h := Start(f, alias);
    if h < |f| {
      var cut := Span(f, h);
      RewrittenTexts(f, alias, o);
      OpensIsHeader(f[h].text, alias);
      FileTexts(f, h);
      OwnPart(f, h, o);
      BlockHasNoHeaders(f, h);
      NoHeaderTexts(cut.block[1..]);
      OthersUnchanged(Texts(f[..h]), f[h].text, Texts(cut.block[1..]), Own(cut.block, o), Texts(cut.rest), alias);
    } else {
      AppendedOthers(f, alias, o);
    }
  }

  lemma {:induction false} OpensOwn(alias: string)
    ensures Opens("[" + alias + "]", alias) && IsHeader("[" + alias + "]")
  {
  }

  lemma {:induction false} AppendedOthers(f: File, alias: string, o: seq<Setting>)
    requires Joined(f) && Settings(o) && Start(f, alias) == |f|
    ensures Elsewhere(Entries(Texts(Write(f, alias, o)), ""), alias) == Elsewhere(Entries(Texts(f), ""), alias)
  {
    var header, own := "[" + alias + "]", Texts(Added([], Ordered(o)));
    AppendedTexts(f, alias, o);
    OpensOwn(alias);
    OrderedBare(o);
    AddedNoHeaders([], Ordered(o));
    NoHeaderTexts(Added([], Ordered(o)));
    Table(Texts(f), header, own, [], alias);
    assert Texts(f) + [header] + own + [] == Texts(f) + [header] + own;
    assert Elsewhere(Entries([], header), alias) == [];
    assert Elsewhere(Entries(Texts(f), ""), alias) + [] == Elsewhere(Entries(Texts(f), ""), alias);
  }

  // ---------------------------------------------------------------- idempotence

  lemma {:induction false} OpenedText(f: File, alias: string, k: string)
    requires k in Texts(f) && Opens(k, alias)
    ensures Start(f, alias) < |f|
  {
    FromLine(f, k);
    var l :| l in f && l.text == k;
    var i :| 0 <= i < |f| && f[i] == l;
  }

  /** The written file has the table. */
  lemma {:induction false} WrittenHas(f: File, alias: string, o: seq<Setting>)
    requires Joined(f) && Settings(o)
    ensures Joined(Write(f, alias, o)) && Start(Write(f, alias, o), alias) < |Write(f, alias, o)|
  {
    var h := Start(f, alias);
    var v := Write(f, alias, o);
    if h < |f| {
      RewrittenTexts(f, alias, o);
      assert Texts(v)[|Texts(f[..h])|] == f[h].text;
      OpenedText(v, alias, f[h].text);
    } else {
      AppendedTexts(f, alias, o);
      OpensOwn(alias);
      assert Texts(v)[|Texts(f)|] == "[" + alias + "]";
      OpenedText(v, alias, "[" + alias + "]");
    }
  }

  lemma {:induction false} WrittenSettled(keys: seq<string>, o: seq<Setting>)
    requires Settings(o) && forall k :: k in keys <==> Written(o, k)
    ensures Settled(keys, o)
  {
    forall k | k in keys ensures Wanted(o, Name(k)).Given? && k == Render(Name(k), Wanted(o, Name(k)).text) {
      WrittenIs(o, k);
    }
    forall s | s in o && s.value.Given? ensures exists k :: k in keys && Name(k) == s.key {
      var k := Render(s.key, s.value.text);
      assert Written(o, k);
      WantedIs(o, s);
      WantedIsBare(o, s.key);
      RenderIsKey(s.key, s.value.text);
    }
  }

  lemma {:induction false} CutBack(pre: File, block: File, rest: File)
    requires block != [] && (pre != [] ==> pre[|pre| - 1].ended)
    ensures Cat(Cat(pre, block), rest) == pre + Cat(block, rest)
  {
    assert Cat(pre, block) == pre + block;
    if block[|block| - 1].ended || rest == [] {
      Group(pre, block, rest);
    } else {
      assert (pre + block)[..|pre + block| - 1] == pre + block[..|block| - 1];
    }
  }

  lemma {:induction false} BackGroup(f: File, h: nat, cut: Cut)
    requires h < |f| && Joined(f) && GoodCut(cut, f, h)
    ensures Cat(Cat(f[..h], cut.block), cut.rest) == f
  {
    CutBack(f[..h], cut.block, cut.rest);
    assert f == f[..h] + f[h..];
  }

  /** A file whose table is settled is written as it is. */
  lemma {:induction false} SettledFile(f: File, alias: string, o: seq<Setting>)
    requires Joined(f) && Start(f, alias) < |f| && Settled(FirstKeys(Texts(f), alias), o)
    ensures Write(f, alias, o) == f
  {
    var h := Start(f, alias);
    SpanKeys(f, alias);
    SpanJoins(f, h);
    SettledStays(Span(f, h).block, o);
    BackGroup(f, h, Span(f, h));
  }

  /** Writing the same settings twice is writing them once. */
  lemma {:induction false} WriteTwice(f: File, alias: string, o: seq<Setting>)
    requires Joined(f) && Settings(o) && '=' !in alias
    ensures Write(Write(f, alias, o), alias, o) == Write(f, alias, o)
  {
    var v := Write(f, alias, o);
    WrittenHas(f, alias, o);
    forall k ensures k in FirstKeys(Texts(v), alias) <==> Written(o, k) { OwnTable(f, alias, o, k); }
    WrittenSettled(FirstKeys(Texts(v), alias), o);
    SettledFile(v, alias, o);
  }

  // ---------------------------------------------------------------- comments of the whole file

  /** What is not a setting: comments, headers and anything else. */
  function Notes(t: seq<string>): seq<string> {
    if t == [] then [] else OtherPart(t[0]) + Notes(t[1..])
  }

  function Loud(t: seq<string>): seq<string> {
    if t == [] then [] else LoudPart(t[0]) + Loud(t[1..])
  }

  lemma {:induction false} NotesAppend(a: seq<string>, b: seq<string>)
    ensures Notes(a + b) == Notes(a) + Notes(b)
    decreases |a|
  {
    if a == [] {
      assert a + b == b;
    } else {
      NotesAppend(a[1..], b);
      Unnest(a, b);
      Group(OtherPart(a[0]), Notes(a[1..]), Notes(b));
    }
  }

  lemma {:induction false} NotesOfTexts(f: File)
    ensures Notes(Texts(f)) == Loud(Others(f))
    decreases |f|
  {
    if f != [] {
      NotesOfTexts(f[1..]);
      var s := f[0].text;
      assert [] + Texts(f[1..]) == Texts(f[1..]) && [] + Others(f[1..]) == Others(f[1..]);
      if !Empty(s) {
        var t := [s] + Texts(f[1..]);
        assert t[1..] == Texts(f[1..]);
      }
      if !IsKey(s) {
        var u := [s] + Others(f[1..]);
        assert u[1..] == Others(f[1..]);
        assert [] + Loud(Others(f[1..])) == Loud(Others(f[1..]));
      } else {
        assert [] + Notes(Texts(f[1..])) == Notes(Texts(f[1..]));
      }
    }
  }

  lemma {:induction false} MergeNotes(block: File, o: seq<Setting>)
    requires block != [] && Settings(o) && IsHeader(block[0].text)
    ensures Notes([block[0].text] + Own(block, o)) == Notes([block[0].text] + Texts(block[1..]))
  {
    MergeTexts(block, o);
    HeadText(block);
    CommentsSurvive(block, o);
    NotesOfTexts(Merge(block, o));
    NotesOfTexts(block);
  }

  lemma {:induction false} NotesAround(pre: seq<string>, a: seq<string>, b: seq<string>, post: seq<string>)
    requires Notes(a) == Notes(b)
    ensures Notes(pre + a + post) == Notes(pre + b + post)
  {
    NotesAppend(pre + a, post);
    NotesAppend(pre, a);
    NotesAppend(pre + b, post);
    NotesAppend(pre, b);
  }

  /** Every comment of the file survives a write, in its order; a table that is new adds only its header. */
  lemma {:induction false} NotesSurvive(f: File, alias: string, o: seq<Setting>)
    requires Joined(f) && Settings(o) && '=' !in alias
    ensures Notes(Texts(Write(f, alias, o)))
            == Notes(Texts(f)) + if Start(f, alias) < |f| then [] else ["[" + alias + "]"]
  {
    var h := Start(f, alias);
    if h < |f| {
      RewrittenNotes(f, alias, o);
      assert Notes(Texts(f)) + [] == Notes(Texts(f));
    } else {
      AppendedNotes(f, alias, o);
    }
  }

  lemma {:induction false} RewrittenNotes(f: File, alias: string, o: seq<Setting>)
    requires Joined(f) && Settings(o) && Start(f, alias) < |f|
    ensures Notes(Texts(Write(f, alias, o))) == Notes(Texts(f))
  {
    var h := Start(f, alias);
    var cut := Span(f, h);
    OpensIsHeader(f[h].text, alias);
    RewrittenTexts(f, alias, o);
    FileTexts(f, h);
    MergeNotes(cut.block, o);
    var pre, header, post := Texts(f[..h]), [f[h].text], Texts(cut.rest);
    Group(pre, header, Own(cut.block, o));
    Group(pre, header, Texts(cut.block[1..]));
    NotesAround(pre, header + Own(cut.block, o), header + Texts(cut.block[1..]), post);
  }

  lemma {:induction false} NoNotes(body: File, ordered: seq<Setting>)
    requires forall s | s in ordered :: Bare(s.key)
    ensures Notes(Texts(Added(body, ordered))) == []
  {
    AddedOthers(body, ordered);
    NotesOfTexts(Added(body, ordered));
  }

  lemma {:induction false} AppendedNotes(f: File, alias: string, o: seq<Setting>)
    requires Joined(f) && Settings(o) && Start(f, alias) == |f| && '=' !in alias
    ensures Notes(Texts(Write(f, alias, o))) == Notes(Texts(f)) + ["[" + alias + "]"]
  {
    var header := "[" + alias + "]";
    AppendedTexts(f, alias, o);
    OpensOwn(alias);
    HeaderIsNoKey(header, alias);
    OrderedBare(o);
    NoNotes([], Ordered(o));
    NotesAppend(Texts(f) + [header], Texts(Added([], Ordered(o))));
    NotesAppend(Texts(f), [header]);
    assert [header][1..] == [] && Notes([header]) == [header] + [];
    assert Notes(Texts(f)) + [header] + [] == Notes(Texts(f)) + [header];
  }

  // ---------------------------------------------------------------- removing a table

  /** str.lstrip of line ends. */
  function WithoutLeading(f: File): File {
    if f != [] && f[0] == Line("", true) then WithoutLeading(f[1..]) else f
  }

  /** `remove_block`. */
  function Remove(f: File, alias: string): File {
    var h := Start(f, alias);
    if h == |f| then f else WithoutLeading(Cat(f[..h], Span(f, h).rest))
  }

  lemma {:induction false} LeadingTexts(f: File)
    ensures Texts(WithoutLeading(f)) == Texts(f)
    decreases |f|
  {
    if f != [] && f[0] == Line("", true) {
      LeadingTexts(f[1..]);
      assert [] + Texts(f[1..]) == Texts(f[1..]);
    }
  }

  /** Lines with no setting above their first header read the same under any table. */
  lemma {:induction false} UnderAny(t: seq<string>, a: string, b: string)
    requires OwnKeys(t) == []
    ensures Entries(t, a) == Entries(t, b)
    decreases |t|
  {
    if t != [] && !IsHeader(t[0]) {
      assert !IsKey(t[0]);
      assert [] + OwnKeys(t[1..]) == OwnKeys(t[1..]);
      UnderAny(t[1..], a, b);
    }
  }

  lemma {:induction false} RemovedTexts(f: File, alias: string)
    requires Joined(f) && Start(f, alias) < |f|
    ensures var h := Start(f, alias); Texts(Remove(f, alias)) == Texts(f[..h]) + Texts(Span(f, h).rest)
  {
    var h := Start(f, alias);
    JoinedLast(f[..h]);
    assert h > 0 ==> f[h - 1] in f[..h];
    LeadingTexts(Cat(f[..h], Span(f, h).rest));
    CatTexts(f[..h], Span(f, h).rest);
  }

  lemma {:induction false} WithoutTable(pre: seq<string>, header: string, post: seq<string>, alias: string)
    requires OwnKeys(post) == []
    ensures Elsewhere(Entries(pre + post, ""), alias) == Elsewhere(Entries(pre, ""), alias) + Elsewhere(Entries(post, header), alias)
  {
    EntriesAppend(pre, post, "");
    UnderAny(post, LastHeader(pre, ""), header);
    ElsewhereAppend(Entries(pre, ""), Entries(post, header), alias);
  }

  lemma {:induction false} FileElsewhere(f: File, alias: string)
    requires Joined(f) && Start(f, alias) < |f|
    ensures var h := Start(f, alias);
            Elsewhere(Entries(Texts(f), ""), alias)
            == Elsewhere(Entries(Texts(f[..h]), ""), alias) + Elsewhere(Entries(Texts(Span(f, h).rest), f[h].text), alias)
  {
    var h := Start(f, alias);
    OpensIsHeader(f[h].text, alias);
    FileTexts(f, h);
    BlockHasNoHeaders(f, h);
    NoHeaderTexts(Span(f, h).block[1..]);
    Table(Texts(f[..h]), f[h].text, Texts(Span(f, h).block[1..]), Texts(Span(f, h).rest), alias);
  }

  /** Removing a table changes no setting of any other. */
  lemma {:induction false} RemoveLeavesOthers(f: File, alias: string)
    requires Joined(f)
    ensures Elsewhere(Entries(Texts(Remove(f, alias)), ""), alias) == Elsewhere(Entries(Texts(f), ""), alias)
  {
    var h := Start(f, alias);
    if h < |f| {
      RemovedTexts(f, alias);
      RestIsOther(f, h);
      WithoutTable(Texts(f[..h]), f[h].text, Texts(Span(f, h).rest), alias);
      FileElsewhere(f, alias);
    }
  }
}
