/**
  What an edit of `ConfigWriter` does to the characters of a file: which are replaced, which stay, where a
  table ends, where a new setting goes, in which order, and what is put in between.
*/
module ConfigEdits {
  import opened Strings
  import opened ConfigWriter

  /** The characters of a file. */
  function Chars(f: File): string {
    if f == [] then "" else f[0].text + (if f[0].ended then "\n" else "") + Chars(f[1..])
  }

  /** Lines as splitlines gives them: no line feed inside, and none that is nothing at all. */
  ghost predicate AreLines(f: File) {
    forall l | l in f :: '\n' !in l.text && (l.text == "" ==> l.ended)
  }

  lemma {:induction false} CharsAppend(a: File, b: File)
    ensures Chars(a + b) == Chars(a) + Chars(b)
    decreases |a|
  {
    if a == [] {
      assert a + b == b;
    } else {
      CharsAppend(a[1..], b);
      Unnest(a, b);
    }
  }

  lemma {:induction false} OneLine(l: Line)
    ensures Chars([l]) == l.text + if l.ended then "\n" else ""
  {
    assert [l][1..] == [];
  }

  /** Putting files together puts their characters together. */
  lemma {:induction false} CharsCat(a: File, b: File)
    ensures Chars(Cat(a, b)) == Chars(a) + Chars(b)
  {
    if a == [] || a[|a| - 1].ended || b == [] {
      CharsAppend(a, b);
    } else {
      var (front, last) := (a[..|a| - 1], a[|a| - 1]);
      var joint := Line(last.text + b[0].text, b[0].ended);
      assert a == front + [last] && b == [b[0]] + b[1..];
      CharsAppend(front + [joint], b[1..]);
      CharsAppend(front, [joint]);
      CharsAppend(front, [last]);
      CharsAppend([b[0]], b[1..]);
      OneLine(joint);
      OneLine(last);
      OneLine(b[0]);
    }
  }

  // ---------------------------------------------------------------- what stays as it was

  lemma {:induction false} ThreeParts(a: File, b: File, c: File)
    ensures Chars(Cat(Cat(a, b), c)) == Chars(a) + Chars(b) + Chars(c)
  {
    CharsCat(Cat(a, b), c);
    CharsCat(a, b);
  }

  lemma {:induction false} FileParts(f: File, h: nat)
    requires Joined(f) && h < |f|
    ensures var cut := Span(f, h); Chars(f) == Chars(f[..h]) + Chars(cut.block) + Chars(cut.rest)
  {
    var cut := Span(f, h);
    SpanJoins(f, h);
    CharsCat(cut.block, cut.rest);
    assert f == f[..h] + f[h..];
    CharsAppend(f[..h], f[h..]);
    Associate(Chars(f[..h]), Chars(cut.block), Chars(cut.rest));
  }

  lemma {:induction false} Associate(a: string, b: string, c: string)
    ensures a + (b + c) == a + b + c
  {
  }

  /**
    Every character outside the table stays: a write puts other lines where the table was. A table that
    was not there comes after everything else.
  */
  lemma {:induction false} RestUnchanged(f: File, alias: string, o: seq<Setting>)
    requires Joined(f)
    ensures var h, w := Start(f, alias), Write(f, alias, o);
            if h == |f| then Chars(w) == Chars(f) + Chars(Separator(f)) + Chars(FormatBlock(alias, o))
            else
              var cut := Span(f, h);
              && cut.block != []
              && Chars(f) == Chars(f[..h]) + Chars(cut.block) + Chars(cut.rest)
              && Chars(w) == Chars(f[..h]) + Chars(Merge(cut.block, o)) + Chars(cut.rest)
  {
    var h := Start(f, alias);
    if h == |f| {
      ThreeParts(f, Separator(f), FormatBlock(alias, o));
    } else {
      SpanHasHeader(f, h);
      FileParts(f, h);
      ThreeParts(f[..h], Merge(Span(f, h).block, o), Span(f, h).rest);
    }
  }

  /** The first line that is the alias in brackets and nothing more than blanks opens its table. */
  lemma {:induction false} StartExact(f: File, alias: string)
    ensures var h := Start(f, alias);
            && h <= |f|
            && (forall i | 0 <= i < h :: !Heads(f[i].text, alias))
            && (h < |f| ==> Heads(f[h].text, alias))
  {
    forall i | 0 <= i < |f| ensures Opens(f[i].text, alias) <==> Heads(f[i].text, alias) { HeadsIs(f[i].text, alias); }
  }

  ghost predicate Heads(s: string, alias: string) {
    exists blanks :: s == "[" + alias + "]" + blanks && Spaces(blanks)
  }

  lemma {:induction false} HeadsIs(s: string, alias: string)
    ensures Opens(s, alias) <==> Heads(s, alias)
  {
    var head := "[" + alias + "]";
    if Opens(s, alias) {
      var blanks := s[|head|..];
      assert s == head + blanks;
      forall i | 0 <= i < |blanks| ensures Blank(blanks[i]) && Spaces([blanks[i]]) {
        assert blanks[i] == s[|head| + i];
        BlankIs(blanks[i]);
      }
      assert forall i | 0 <= i < |blanks| :: [blanks[i]][0] == blanks[i];
      assert Spaces(blanks);
    }
    if blanks :| s == head + blanks && Spaces(blanks) {
      forall i | |head| <= i < |s| ensures Blank(s[i]) {
        assert s[i] == blanks[i - |head|];
        BlankIs(s[i]);
      }
    }
  }

  // ---------------------------------------------------------------- where a table ends

  /** Nothing but whitespace, or a number sign after it. */
  ghost predicate Remark(s: string) {
    Spaces(s) || exists before, after :: s == before + "#" + after && Spaces(before)
  }

  lemma {:induction false} FirstIs(before: string, middle: string, after: string, x: string, y: string)
    requires Spaces(before) && Spaces(x) && before + middle + after == x + "#" + y
    requires middle != "" && !Spaces([middle[0]])
    ensures middle[0] == '#'
  {
    var s := before + middle + after;
    assert s[|before|] == middle[0] && s[|x|] == '#';
  }

  /** A line is quiet when it is a remark. */
  lemma {:induction false} QuietIs(s: string)
    ensures Quiet(s) <==> Remark(s)
    ensures Empty(s) <==> Spaces(s)
  {
    var before, after := StripParts(s);
    var m := Strip(s);
    if m == "" {
      assert s == before + after;
      assert Spaces(s) by { forall i | 0 <= i < |s| ensures s[i] == if i < |before| then before[i] else after[i - |before|] {} }
    } else {
      assert s[|before|] == m[0];
      assert !Spaces(s) by { assert Spaces(s) ==> Spaces([s[|before|]]); }
      if m[0] == '#' {
        assert m == "#" + m[1..];
        assert s == before + "#" + (m[1..] + after);
      }
      if x, y :| s == x + "#" + y && Spaces(x) { FirstIs(before, m, after, x, y); }
    }
  }

  ghost predicate NoHeader(f: File, from: nat, to: nat)
    requires to <= |f|
  {
    forall k | from <= k < to :: f[k].text != "" ==> f[k].text[0] != '['
  }

  /**
    A table with a header below at `t` ends at `m`, and only remarks are in between; its last line is none,
    or else it is the header with the empty lines below it, all but the end of the last.
  */
  ghost predicate EndsAbove(f: File, h: nat, m: nat, t: nat, cut: Cut)
    requires h < m <= t < |f|
  {
    && f[t].text != "" && f[t].text[0] == '[' && NoHeader(f, h + 1, t)
    && (forall k | m <= k < t :: Quiet(f[k].text))
    && (if m > h + 1 && !Quiet(f[m - 1].text) then cut == Cut(f[h..m], f[m..]) else EndsInside(f, h, m, t, cut))
  }

  ghost predicate EndsInside(f: File, h: nat, m: nat, t: nat, cut: Cut)
    requires h < m <= t < |f|
  {
    && (forall k | h < k < m :: Empty(f[k].text)) && (m < t ==> !Empty(f[m].text))
    && cut == Cut(f[h..m - 1] + [Line(f[m - 1].text, false)], [Line("", f[m - 1].ended)] + f[m..])
  }

  /** A table reaches to the end of the file, or to the remarks above the next header. */
  ghost predicate EndsWell(f: File, h: nat, cut: Cut)
    requires h < |f|
  {
    || (NoHeader(f, h + 1, |f|) && cut == Cut(f[h..], []))
    || exists m, t | h < m <= t < |f| :: EndsAbove(f, h, m, t, cut)
  }

  lemma {:induction false} SkipsEmpty(f: File, i: nat, t: nat)
    requires i <= t <= |f|
    ensures var q := SkipEmpty(f, i, t);
            (forall k | i <= k < q :: Empty(f[k].text)) && (q < t ==> !Empty(f[q].text))
    decreases t - i
  {
    if i < t && Empty(f[i].text) { SkipsEmpty(f, i + 1, t); }
  }

  lemma {:induction false} EndsEmpty(f: File, h: nat, t: nat)
    requires h < t < |f| && t == NextHeader(f, h + 1) && LastLoud(f, h + 1, t) == h + 1
    ensures exists m | h < m <= t :: EndsAbove(f, h, m, t, Span(f, h))
  {
    SkipsEmpty(f, h + 1, t);
    var q := SkipEmpty(f, h + 1, t);
    assert EndsInside(f, h, q, t, Span(f, h));
    assert q > h + 1 ==> Quiet(f[q - 1].text);
    assert EndsAbove(f, h, q, t, Span(f, h));
  }

  lemma {:induction false} TableEnds(f: File, h: nat)
    requires h < |f|
    ensures EndsWell(f, h, Span(f, h))
  {
    var t := NextHeader(f, h + 1);
    if t < |f| {
      var m := LastLoud(f, h + 1, t);
      if m == h + 1 {
        EndsEmpty(f, h, t);
      } else {
        assert EndsAbove(f, h, m, t, Span(f, h));
      }
    }
  }

  // ---------------------------------------------------------------- a new table

  /** The settings given a value, as lines. */
  function SettingChars(o: seq<Setting>): string {
    if o == [] then ""
    else (if o[0].value.Given? then o[0].key + " = " + o[0].value.text + "\n" else "") + SettingChars(o[1..])
  }

  lemma {:induction false} AddedChars(o: seq<Setting>)
    ensures Chars(Added([], o)) == SettingChars(o)
    decreases |o|
  {
    if o != [] {
      AddedChars(o[1..]);
      CharsAppend(AddedLine([], o[0]), Added([], o[1..]));
      if o[0].value.Given? { OneLine(Line(Render(o[0].key, o[0].value.text), true)); }
    }
  }

  /** A new table is its header and its settings in order. */
  lemma {:induction false} BlockChars(alias: string, o: seq<Setting>)
    ensures Chars(FormatBlock(alias, o)) == "[" + alias + "]\n" + SettingChars(Ordered(o))
  {
    var head := Line("[" + alias + "]", true);
    CharsAppend([head], Added([], Ordered(o)));
    OneLine(head);
    AddedChars(Ordered(o));
  }

  ghost predicate EndsIn(s: string, end: string) {
    |s| >= |end| && s[|s| - |end|..] == end
  }

  lemma {:induction false} LastOf(front: string, text: string, ended: bool)
    requires '\n' !in text && (text == "" ==> ended)
    ensures var s := front + text + if ended then "\n" else "";
            s != "" && (EndsIn(s, "\n") <==> ended) && (EndsIn(s, "\n\n") <==> ended && text == "" && EndsIn(front, "\n"))
  {
    var s := front + text + if ended then "\n" else "";
    if text != "" {
      var c := text[|text| - 1];
      assert c in text && s[|front| + |text| - 1] == c;
    } else {
      assert s == front + "\n";
    }
  }

  lemma {:induction false} CharsLast(f: File)
    requires f != []
    ensures var n := |f| - 1; Chars(f) == Chars(f[..n]) + f[n].text + if f[n].ended then "\n" else ""
  {
    var n := |f| - 1;
    assert f == f[..n] + [f[n]];
    CharsAppend(f[..n], [f[n]]);
    OneLine(f[n]);
  }

  lemma {:induction false} EndOfLine(f: File)
    requires f != [] && AreLines(f)
    ensures var (n, s) := (|f| - 1, Chars(f));
            && s != "" && (EndsIn(s, "\n") <==> f[n].ended)
            && (EndsIn(s, "\n\n") <==> f[n].ended && f[n].text == "" && EndsIn(Chars(f[..n]), "\n"))
  {
    var n := |f| - 1;
    CharsLast(f);
    assert f[n] in f;
    LastOf(Chars(f[..n]), f[n].text, f[n].ended);
  }

  lemma {:induction false} LastChars(f: File)
    requires Joined(f) && AreLines(f) && f != []
    ensures EndsIn(Chars(f), "\n") <==> f[|f| - 1].ended
    ensures EndsIn(Chars(f), "\n\n") <==> f[|f| - 1].ended && f[|f| - 1].text == "" && |f| > 1
    ensures Chars(f) != ""
  {
    var front := f[..|f| - 1];
    EndOfLine(f);
    if front != [] {
      assert AreLines(front) by { assert forall l | l in front :: l in f; }
      EndOfLine(front);
      assert front[|front| - 1] == f[|f| - 2];
    }
  }

  /** An empty line is left between it and what was there. */
  lemma {:induction false} SeparatorExact(f: File)
    requires Joined(f) && AreLines(f)
    ensures var s := Chars(f);
            Chars(Separator(f)) == if s == "" || EndsIn(s, "\n\n") then "" else if EndsIn(s, "\n") then "\n" else "\n\n"
  {
    OneLine(Line("", true));
    CharsAppend([Line("", true)], [Line("", true)]);
    assert [Line("", true), Line("", true)] == [Line("", true)] + [Line("", true)];
    if f != [] { LastChars(f); }
  }

  // ---------------------------------------------------------------- the order of the settings

  /** kind is first, and the others are by key. */
  ghost predicate ByKey(o: seq<Setting>) {
    && NoKind(o, 1)
    && forall i, j | 0 <= i < j < |o| :: o[i].key == "kind" || AtMost(o[i].key, o[j].key)
  }

  ghost predicate NoKind(o: seq<Setting>, from: nat) {
    forall i | from <= i < |o| :: o[i].key != "kind"
  }

  /** The setting may come before these. */
  ghost predicate Before(s: Setting, o: seq<Setting>) {
    forall x | x in o :: s.key == "kind" || AtMost(s.key, x.key)
  }

  lemma {:induction false} FirstByKey(s: Setting, rest: seq<Setting>)
    requires ByKey(rest) && NoKind(rest, 0) && Before(s, rest)
    ensures ByKey([s] + rest)
  {
    var all := [s] + rest;
    forall j | 0 < j < |all| ensures all[j].key != "kind" && all[j] in rest { assert all[j] == rest[j - 1]; }
    forall i, j | 0 <= i < j < |all| ensures all[i].key == "kind" || AtMost(all[i].key, all[j].key) {
      if i > 0 { assert all[i] == rest[i - 1] && all[j] == rest[j - 1]; }
    }
  }

  lemma {:induction false} LaterByKey(o: seq<Setting>)
    requires ByKey(o) && o != []
    ensures ByKey(o[1..]) && NoKind(o[1..], 0) && Before(o[0], o[1..])
  {
    assert forall i | 0 <= i < |o[1..]| :: o[1..][i] == o[i + 1];
    forall x | x in o[1..] ensures o[0].key == "kind" || AtMost(o[0].key, x.key) {
      var k :| 0 <= k < |o[1..]| && o[1..][k] == x;
      assert o[k + 1] == x;
    }
  }

  lemma {:induction false} BeforeAll(s: Setting, o: seq<Setting>)
    requires o != [] && Before(o[0], o[1..]) && o[0].key != "kind" && AtMost(s.key, o[0].key)
    ensures Before(s, o)
  {
    forall x | x in o ensures AtMost(s.key, x.key) {
      if x != o[0] {
        assert o == [o[0]] + o[1..];
        assert x in o[1..];
        AtMostTransitive(s.key, o[0].key, x.key);
      }
    }
  }

  lemma {:induction false} InsertNoKind(s: Setting, o: seq<Setting>)
    requires s.key != "kind" && NoKind(o, 0)
    ensures NoKind(Insert(s, o), 0)
  {
    InsertHas(s, o);
    forall i | 0 <= i < |Insert(s, o)| ensures Insert(s, o)[i].key != "kind" { assert Insert(s, o)[i] in Insert(s, o); }
  }

  lemma {:induction false} InsertByKey(s: Setting, o: seq<Setting>)
    requires ByKey(o) && s.key != "kind" && NoKind(o, 0)
    ensures ByKey(Insert(s, o)) && multiset(Insert(s, o)) == multiset(o) + multiset{s}
    decreases |o|
  {
    if o != [] {
      LaterByKey(o);
      assert o == [o[0]] + o[1..];
      if AtMost(s.key, o[0].key) {
        BeforeAll(s, o);
        FirstByKey(s, o);
      } else {
        var rest := Insert(s, o[1..]);
        InsertByKey(s, o[1..]);
        AtMostTotal(s.key, o[0].key);
        InsertHas(s, o[1..]);
        InsertNoKind(s, o[1..]);
        FirstByKey(o[0], rest);
      }
    }
  }

  lemma {:induction false} KindInFront(kind: Setting, s: Setting, others: seq<Setting>)
    requires kind.key == "kind" && s.key != "kind" && ByKey(others) && NoKind(others, 0)
    ensures ByKey([kind] + Insert(s, others)) && multiset([kind] + Insert(s, others)) == multiset([kind] + others) + multiset{s}
  {
    InsertByKey(s, others);
    InsertNoKind(s, others);
    FirstByKey(kind, Insert(s, others));
  }

  lemma {:induction false} OneByKey(s: Setting, rest: seq<Setting>)
    requires ByKey(rest) && (s.key == "kind" ==> NoKind(rest, 0))
    ensures var r := if s.key == "kind" then [s] + rest
                     else if rest != [] && rest[0].key == "kind" then [rest[0]] + Insert(s, rest[1..]) else Insert(s, rest);
            ByKey(r) && multiset(r) == multiset(rest) + multiset{s}
  {
    if s.key == "kind" {
      FirstByKey(s, rest);
    } else if rest != [] && rest[0].key == "kind" {
      LaterByKey(rest);
      KindInFront(rest[0], s, rest[1..]);
      assert rest == [rest[0]] + rest[1..];
    } else {
      InsertByKey(s, rest);
    }
  }

  /** The settings are written kind first and the others by key, none more and none less. */
  lemma {:induction false} OrderedByKey(o: seq<Setting>)
    requires Settings(o)
    ensures ByKey(Ordered(o)) && multiset(Ordered(o)) == multiset(o)
    decreases |o|
  {
    if o != [] {
      assert Settings(o[1..]) by { assert forall i | 0 <= i < |o[1..]| :: o[1..][i] == o[i + 1]; }
      var rest := Ordered(o[1..]);
      OrderedByKey(o[1..]);
      OrderedHas(o[1..]);
      assert o == [o[0]] + o[1..];
      forall i | 0 <= i < |rest| ensures rest[i].key != o[0].key {
        assert rest[i] in rest;
        KeyApart(o, rest[i]);
      }
      OneByKey(o[0], rest);
    }
  }

  lemma {:induction false} KeyApart(o: seq<Setting>, x: Setting)
    requires Settings(o) && o != [] && x in o[1..]
    ensures x.key != o[0].key
  {
    var k :| 0 <= k < |o[1..]| && o[1..][k] == x;
    assert x == o[k + 1];
  }

  // ---------------------------------------------------------------- where a new setting goes

  /** The line is a setting: not a remark, and with an equals sign. */
  ghost predicate IsSetting(s: string) {
    !Remark(s) && '=' in s
  }

  lemma {:induction false} SettingIs(s: string)
    ensures IsKey(s) <==> IsSetting(s)
  {
    QuietIs(s);
    var before, after := StripParts(s);
    assert forall i | 0 <= i < |s| :: s[i] == if i < |before| then before[i] else if i < |before| + |Strip(s)| then Strip(s)[i - |before|] else after[i - |before| - |Strip(s)|];
    if '=' in Strip(s) {
      var k :| 0 <= k < |Strip(s)| && Strip(s)[k] == '=';
      assert s[|before| + k] == '=';
    }
  }

  lemma {:induction false} UpTo(name: string, rest: string)
    requires '=' !in name
    ensures ConfigWriter.Before(name + "=" + rest) == name
    decreases |name|
  {
    var s := name + "=" + rest;
    if name == "" {
      assert s == "=" + rest && s[0] == '=';
    } else {
      assert s[0] == name[0] && s[1..] == name[1..] + "=" + rest && name == [name[0]] + name[1..];
      assert name[0] in name;
      UpTo(name[1..], rest);
    }
  }

  /** Its name is what stands before the sign, without the whitespace around it. */
  lemma {:induction false} NameExact(indent: string, name: string, gap: string, rest: string)
    requires Spaces(indent) && Spaces(gap) && Tight(name) && '=' !in name && (rest == "" || !Spaces([rest[|rest| - 1]]))
    ensures Name(indent + name + gap + "=" + rest) == name
  {
    var text := name + gap + "=" + rest;
    assert indent + name + gap + "=" + rest == indent + text + "";
    assert !Spaces(['=']) by { assert ['='][0] == '='; }
    assert text[0] == name[0] && text[|text| - 1] == if rest == "" then '=' else rest[|rest| - 1];
    StripExact(indent, text, "");
    assert '=' !in gap;
    UpTo(name + gap, rest);
    StripExact("", name, gap);
    assert "" + name + gap == name + gap;
  }

  /** The settings given a value that the table has not. */
  function MissingChars(body: File, o: seq<Setting>): string {
    if o == [] then ""
    else
      (if o[0].value.Given? && !(exists l | l in body :: IsKey(l.text) && Name(l.text) == o[0].key)
       then o[0].key + " = " + o[0].value.text + "\n" else "")
      + MissingChars(body, o[1..])
  }

  lemma {:induction false} AddedCharsOf(body: File, o: seq<Setting>)
    ensures Chars(Added(body, o)) == MissingChars(body, o)
    decreases |o|
  {
    if o != [] {
      AddedCharsOf(body, o[1..]);
      CharsAppend(AddedLine(body, o[0]), Added(body, o[1..]));
      if AddedLine(body, o[0]) != [] { OneLine(AddedLine(body, o[0])[0]); }
    }
  }

  lemma {:induction false} EndedChars(f: File)
    requires f != []
    ensures Chars(Ended(f)) == Chars(f) + if f[|f| - 1].ended then "" else "\n"
  {
    var (front, last) := (f[..|f| - 1], f[|f| - 1]);
    assert f == front + [last];
    CharsAppend(front, [last]);
    CharsAppend(front, [Line(last.text, true)]);
    OneLine(last);
    OneLine(Line(last.text, true));
  }

  /** What comes after the first part of a rewritten table. */
  function NewChars(block: File, front: File, o: seq<Setting>): string
    requires block != [] && front != []
  {
    var added := MissingChars(block[1..], Ordered(o));
    (if added == "" || front[|front| - 1].ended then "" else "\n") + added
  }

  lemma {:induction false} PutBetween(front: File, added: File, back: File)
    requires front != [] && (added == [] <==> Chars(added) == "")
    ensures Chars((if added == [] then front else Ended(front)) + added + back)
            == Chars(front) + ((if Chars(added) == "" || front[|front| - 1].ended then "" else "\n") + Chars(added)) + Chars(back)
  {
    var first := if added == [] then front else Ended(front);
    EndedChars(front);
    CharsAppend(first + added, back);
    CharsAppend(first, added);
    Associate(Chars(front), if front[|front| - 1].ended then "" else "\n", Chars(added));
  }

  lemma {:induction false} AddedNone(body: File, o: seq<Setting>)
    ensures Added(body, o) == [] <==> Chars(Added(body, o)) == ""
  {
    if Added(body, o) != [] { assert Added(body, o)[0].ended; }
  }

  /**
    A rewritten table keeps its lines in their places, as each is rewritten by itself. The new settings
    come after the last line of a setting that stays, or after the header when none does, and the line
    above them is ended.
  */
  lemma {:induction false} NewSettingsGo(block: File, o: seq<Setting>) returns (n: nat)
    requires block != []
    ensures n <= |block| - 1
    ensures n > 0 ==> IsSetting(block[n].text) && Wanted(o, Name(block[n].text)).Given?
    ensures forall k | n < k < |block| :: !(IsSetting(block[k].text) && Wanted(o, Name(block[k].text)).Given?)
    ensures var front := [block[0]] + Kept(block[1..][..n], o);
            Chars(Merge(block, o)) == Chars(front) + NewChars(block, front, o) + Chars(Kept(block[1..][n..], o))
  {
    n := LastStays(block[1..], o);
    LastOne(block, n, o);
    var p := PartsOf(block, o);
    AddedNone(block[1..], Ordered(o));
    PutBetween(p.front, p.added, p.back);
    AddedCharsOf(block[1..], Ordered(o));
  }

  lemma {:induction false} LastOne(block: File, n: nat, o: seq<Setting>)
    requires block != [] && n == LastStays(block[1..], o)
    ensures n > 0 ==> IsSetting(block[n].text) && Wanted(o, Name(block[n].text)).Given?
    ensures forall k | n < k < |block| :: !(IsSetting(block[k].text) && Wanted(o, Name(block[k].text)).Given?)
  {
    forall k | 0 < k < |block| ensures (IsKey(block[k].text) <==> IsSetting(block[k].text)) && block[1..][k - 1] == block[k] {
      SettingIs(block[k].text);
    }
    forall k | n < k < |block| ensures !(IsSetting(block[k].text) && Wanted(o, Name(block[k].text)).Given?) {
      assert !Stays(block[1..][k - 1].text, o);
    }
  }

  // ---------------------------------------------------------------- removing a table

  ghost predicate LineFeeds(s: string) {
    forall i | 0 <= i < |s| :: s[i] == '\n'
  }

  lemma {:induction false} NoFeedFirst(f: File)
    requires Joined(f) && (f == [] || (f[0] != Line("", true) && '\n' !in f[0].text))
    ensures Chars(f) != "" ==> Chars(f)[0] != '\n'
  {
    if f != [] {
      if f[0].text != "" {
        assert Chars(f)[0] == f[0].text[0];
      } else {
        assert f[1..] == [];
      }
    }
  }

  ghost predicate NoFeeds(f: File) {
    forall l | l in f :: '\n' !in l.text
  }

  lemma {:induction false} FeedsOf(f: File)
    requires forall i | 0 <= i < |f| :: f[i] == Line("", true)
    ensures LineFeeds(Chars(f))
    decreases |f|
  {
    if f != [] {
      FeedsOf(f[1..]);
      assert Chars(f) == "\n" + Chars(f[1..]);
    }
  }

  lemma {:induction false} LeadingLines(f: File) returns (n: nat)
    ensures n <= |f| && WithoutLeading(f) == f[n..]
    ensures forall i | 0 <= i < n :: f[i] == Line("", true)
    ensures n < |f| ==> f[n] != Line("", true)
    decreases |f|
  {
    n := 0;
    if f != [] && f[0] == Line("", true) {
      var m := LeadingLines(f[1..]);
      n := m + 1;
      assert f[1..][m..] == f[n..];
      assert forall i | 1 <= i < n :: f[i] == f[1..][i - 1];
    }
  }

  lemma {:induction false} LeadingChars(f: File) returns (feeds: string)
    requires Joined(f) && NoFeeds(f)
    ensures Chars(f) == feeds + Chars(WithoutLeading(f)) && LineFeeds(feeds)
    ensures Chars(WithoutLeading(f)) != "" ==> Chars(WithoutLeading(f))[0] != '\n'
  {
    var n := LeadingLines(f);
    assert f == f[..n] + f[n..];
    CharsAppend(f[..n], f[n..]);
    FeedsOf(f[..n]);
    feeds := Chars(f[..n]);
    assert n < |f| ==> f[n..][0] == f[n] && f[n] in f;
    NoFeedFirst(f[n..]);
  }

  lemma {:induction false} CatLines(a: File, b: File)
    requires Joined(a) && Joined(b) && NoFeeds(a + b)
    ensures Joined(Cat(a, b)) && NoFeeds(Cat(a, b))
  {
    CatJoined(a, b);
    assert forall l | l in a :: l in a + b;
    assert forall l | l in b :: l in a + b;
    if a != [] && b != [] && !a[|a| - 1].ended {
      forall l | l in Cat(a, b) ensures '\n' !in l.text {
        assert l in a[..|a| - 1] || l in b[1..] || l == Line(a[|a| - 1].text + b[0].text, b[0].ended);
        assert a[|a| - 1] in a && b[0] in b;
      }
    }
  }

  lemma {:induction false} RestLines(f: File, h: nat)
    requires Joined(f) && h < |f| && NoFeeds(f)
    ensures Joined(f[..h]) && Joined(Span(f, h).rest) && NoFeeds(f[..h] + Span(f, h).rest)
  {
    RestJoined(f, h);
    TableEnds(f, h);
    forall l | l in Span(f, h).rest ensures '\n' !in l.text {
      assert l.text == "" || l in f;
    }
  }

  /**
    A removal takes the characters of the table and then the line feeds the file would begin with, and no
    others; without the table the file stays as it is.
  */
  lemma {:induction false} RemovedExact(f: File, alias: string) returns (feeds: string)
    requires Joined(f) && NoFeeds(f)
    ensures LineFeeds(feeds)
    ensures var h := Start(f, alias);
            if h == |f| then Remove(f, alias) == f
            else
              && Chars(f) == Chars(f[..h]) + Chars(Span(f, h).block) + Chars(Span(f, h).rest)
              && Chars(f[..h]) + Chars(Span(f, h).rest) == feeds + Chars(Remove(f, alias))
              && (Chars(Remove(f, alias)) != "" ==> Chars(Remove(f, alias))[0] != '\n')
  {
    var h := Start(f, alias);
    feeds := "";
    if h < |f| {
      FileParts(f, h);
      RestLines(f, h);
      CatLines(f[..h], Span(f, h).rest);
      CharsCat(f[..h], Span(f, h).rest);
      feeds := LeadingChars(Cat(f[..h], Span(f, h).rest));
    }
  }

  // ---------------------------------------------------------------- one line

  /** What becomes of one line: no setting stays as it is, a setting gets its value, and one without a value goes. */
  lemma {:induction false} LineRewritten(l: Line, o: seq<Setting>)
    requires Settings(o)
    ensures IsSetting(l.text) && !(exists s :: s in o && s.key == Name(l.text) && s.value.Given?) ==> Kept([l], o) == []
    ensures !IsSetting(l.text) ==> Kept([l], o) == [l]
    ensures forall s | s in o && s.key == Name(l.text) && s.value.Given? && IsSetting(l.text) ::
              Kept([l], o) == [Line(s.key + " = " + s.value.text, l.ended)]
  {
    SettingIs(l.text);
    assert [l][1..] == [];
    WantedIs(o, Setting(Name(l.text), Absent));
    forall s | s in o && s.key == Name(l.text) ensures Wanted(o, s.key) == s.value { WantedIs(o, s); }
  }

  /** After a write the alias's settings are the keys and values given, as lines. */
  lemma {:induction false} SettingsWritten(f: File, alias: string, o: seq<Setting>, k: string)
    requires Joined(f) && Settings(o) && '=' !in alias
    ensures k in FirstKeys(Texts(Write(f, alias, o)), alias) <==> exists s :: s in o && s.value.Given? && k == s.key + " = " + s.value.text
  {
    OwnTable(f, alias, o, k);
    if s :| s in o && s.value.Given? && k == s.key + " = " + s.value.text { assert k == Render(s.key, s.value.text); }
  }
}
