/**
  Device indices as text: `compact_indices` prints a list of cards, `read_indices` reads what a
  device table declares.

  A list is printed as one range when it looks contiguous, that is when its last element is above
  its first by its length less one, and otherwise one by one. Reading splits at commas, takes each entry
  as a number or as a range of two, and sorts what was found, each number once. Text that is not of
  that form is refused, and so is a range that runs backwards.

  The theorems say what an accepted text names, and exactly which printed lists read back as they
  were: every list without a repetition, and those with one that were not taken for a range.
*/
module Indices {
  import opened Strings

  datatype Result = Ok(indices: seq<nat>) | Refused

  // ---------------------------------------------------------------- sorted(set(...))

  ghost predicate Increasing(s: seq<nat>) {
    forall i, j :: 0 <= i < j < |s| ==> s[i] < s[j]
  }

  ghost predicate NonDecreasing(s: seq<nat>) {
    forall i, j :: 0 <= i < j < |s| ==> s[i] <= s[j]
  }

  lemma {:induction false} ConsIncreasing(h: nat, t: seq<nat>)
    requires Increasing(t) && forall x | x in t :: h < x
    ensures Increasing([h] + t)
  {
    forall i, j | 0 <= i < j < |[h] + t| ensures ([h] + t)[i] < ([h] + t)[j] {
      assert ([h] + t)[j] == t[j - 1] && t[j - 1] in t;
    }
  }

  lemma {:induction false} ConsNonDecreasing(h: nat, t: seq<nat>)
    requires NonDecreasing(t) && forall x | x in t :: h <= x
    ensures NonDecreasing([h] + t)
  {
    forall i, j | 0 <= i < j < |[h] + t| ensures ([h] + t)[i] <= ([h] + t)[j] {
      assert ([h] + t)[j] == t[j - 1] && t[j - 1] in t;
    }
  }

  function Insert(n: nat, s: seq<nat>): seq<nat> {
    if s == [] then [n] else if n <= s[0] then [n] + s else [s[0]] + Insert(n, s[1..])
  }

  /** sorted(list). */
  function Sorted(s: seq<nat>): seq<nat> {
    if s == [] then [] else Insert(s[0], Sorted(s[1..]))
  }

  /** A sorted list without its repetitions. */
  function Once(s: seq<nat>): seq<nat> {
    if |s| < 2 then s else if s[0] == s[1] then Once(s[1..]) else [s[0]] + Once(s[1..])
  }

  /** sorted(set(list)). */
  function SortedSet(s: seq<nat>): seq<nat> {
    Once(Sorted(s))
  }

  lemma {:induction false} InsertSorts(n: nat, s: seq<nat>)
    requires NonDecreasing(s)
    ensures NonDecreasing(Insert(n, s)) && |Insert(n, s)| == |s| + 1
    ensures forall x :: x in Insert(n, s) <==> x == n || x in s
    decreases |s|
  {
    if s != [] {
      assert s == [s[0]] + s[1..];
      if n > s[0] {
        InsertSorts(n, s[1..]);
        ConsNonDecreasing(s[0], Insert(n, s[1..]));
      } else {
        ConsNonDecreasing(n, s);
      }
    }
  }

  lemma {:induction false} SortedSorts(s: seq<nat>)
    ensures NonDecreasing(Sorted(s)) && |Sorted(s)| == |s|
    ensures forall x :: x in Sorted(s) <==> x in s
    decreases |s|
  {
    if s != [] {
      assert s == [s[0]] + s[1..];
      SortedSorts(s[1..]);
      InsertSorts(s[0], Sorted(s[1..]));
    }
  }

  lemma {:induction false} OnceIncreases(s: seq<nat>)
    requires NonDecreasing(s)
    ensures Increasing(Once(s)) && |Once(s)| <= |s|
    ensures forall x :: x in Once(s) <==> x in s
    ensures s != [] ==> Once(s) != [] && Once(s)[0] == s[0]
    ensures |Once(s)| == |s| <==> Increasing(s)
    decreases |s|
  {
    if |s| >= 2 {
      assert s == [s[0]] + s[1..];
      OnceIncreases(s[1..]);
      var t := Once(s[1..]);
      assert t[0] == s[1] == s[1..][0];
      if s[0] != s[1] {
        ConsIncreasing(s[0], t);
        if Increasing(s[1..]) { ConsIncreasing(s[0], s[1..]); }
      }
    }
  }

  /** sorted(set(...)) is strictly increasing and has just the list's elements. */
  lemma {:induction false} SortedSetExact(s: seq<nat>)
    ensures Increasing(SortedSet(s)) && forall x :: x in SortedSet(s) <==> x in s
  {
    SortedSorts(s);
    OnceIncreases(Sorted(s));
  }

  lemma {:induction false} HasElement(s: seq<nat>)
    requires s != []
    ensures exists x :: x in s
  {
    assert s[0] in s;
  }

  lemma {:induction false} InTail(s: seq<nat>)
    requires s != [] && s[0] !in s[1..]
    ensures forall x :: x in s[1..] <==> x in s && x != s[0]
  {
    assert s == [s[0]] + s[1..];
  }

  /** Two strictly increasing lists of the same elements are one. */
  lemma {:induction false} OneOrder(s: seq<nat>, t: seq<nat>)
    requires Increasing(s) && Increasing(t) && forall x :: x in s <==> x in t
    ensures s == t
    decreases |s|
  {
    if s == [] {
      if t != [] { HasElement(t); }
    } else {
      assert s[0] in s;
      assert t[0] in t;
      var i :| 0 <= i < |t| && t[i] == s[0];
      var j :| 0 <= j < |s| && s[j] == t[0];
      assert s[0] == t[0];
      InTail(s);
      InTail(t);
      OneOrder(s[1..], t[1..]);
      assert s == [s[0]] + s[1..] && t == [t[0]] + t[1..];
    }
  }

  // ---------------------------------------------------------------- numbers

  predicate Digit(c: char) {
    '0' <= c <= '9'
  }

  /** str.isdigit for ASCII. */
  predicate IsDigits(s: string) {
    s != "" && forall i | 0 <= i < |s| :: Digit(s[i])
  }

  function Print(n: nat): (s: string)
    ensures IsDigits(s)
  {
    if n < 10 then [('0' as int + n) as char] else Print(n / 10) + [('0' as int + n % 10) as char]
  }

  function Int(s: string): nat
    requires IsDigits(s) || s == ""
  {
    if s == "" then 0 else 10 * Int(s[..|s| - 1]) + (s[|s| - 1] as int - '0' as int)
  }

  lemma {:induction false} IntPrint(n: nat)
    ensures Int(Print(n)) == n
    decreases n
  {
    var last := [('0' as int + n % 10) as char];
    if n < 10 {
      assert last[..0] == "";
    } else {
      IntPrint(n / 10);
      assert (Print(n / 10) + last)[..|Print(n / 10)|] == Print(n / 10);
    }
  }

  // ---------------------------------------------------------------- text

  function Split(s: string, at: char): (parts: seq<string>)
    ensures parts != []
  {
    if s == "" then [""]
    else if s[0] == at then [""] + Split(s[1..], at)
    else
      var rest := Split(s[1..], at);
      [[s[0]] + rest[0]] + rest[1..]
  }

  function Join(parts: seq<string>, sep: char): string {
    if parts == [] then "" else if |parts| == 1 then parts[0] else parts[0] + [sep] + Join(parts[1..], sep)
  }

  lemma {:induction false} SplitOne(s: string, at: char)
    requires at !in s
    ensures Split(s, at) == [s]
    decreases |s|
  {
    if s != "" {
      SplitOne(s[1..], at);
      assert s == [s[0]] + s[1..];
    }
  }

  lemma {:induction false} SplitFirst(s: string, at: char, rest: string)
    requires at !in s
    ensures Split(s + [at] + rest, at) == [s] + Split(rest, at)
    decreases |s|
  {
    var t := s + [at] + rest;
    if s == "" {
      assert t == [at] + rest && t[1..] == rest;
    } else {
      SplitFirst(s[1..], at, rest);
      assert t[1..] == s[1..] + [at] + rest && t[0] == s[0];
      assert s == [s[0]] + s[1..];
      var x := [s[1..]] + Split(rest, at);
      assert x[0] == s[1..] && x[1..] == Split(rest, at);
    }
  }

  lemma {:induction false} SplitJoin(parts: seq<string>, sep: char)
    requires parts != [] && forall p | p in parts :: sep !in p
    ensures Split(Join(parts, sep), sep) == parts
    decreases |parts|
  {
    if |parts| == 1 {
      SplitOne(parts[0], sep);
      assert parts == [parts[0]];
    } else {
      SplitJoin(parts[1..], sep);
      SplitFirst(parts[0], sep, Join(parts[1..], sep));
      assert parts == [parts[0]] + parts[1..];
    }
  }

  /** str.partition on the first `at`, which is there. */
  function Before(s: string, at: char): (r: string)
    requires at in s
    ensures |r| < |s| && r + [at] <= s && at !in r
  {
    if s[0] == at then "" else
      assert s == [s[0]] + s[1..];
      [s[0]] + Before(s[1..], at)
  }

  // ---------------------------------------------------------------- reading

  function Range(first: nat, last: int): (r: seq<nat>)
    ensures forall i :: i in r <==> first <= i <= last
    ensures first <= last ==> |r| == last - first + 1
    ensures Increasing(r)
    decreases last - first
  {
    if last < first then [] else
      ConsIncreasing(first, Range(first + 1, last));
      [first] + Range(first + 1, last)
  }

  datatype Found = Numbers(numbers: seq<nat>) | Bad

  /** One entry: a number, or a range that does not count backwards. */
  function Piece(part: string): Found {
    var piece := Strip(part);
    if piece == "" then Bad
    else if '-' in piece then
      var low := Before(piece, '-');
      var high := piece[|low| + 1..];
      if !IsDigits(Strip(low)) || !IsDigits(Strip(high)) then Bad
      else if Int(Strip(high)) < Int(Strip(low)) then Bad
      else Numbers(Range(Int(Strip(low)), Int(Strip(high))))
    else if IsDigits(piece) then Numbers([Int(piece)])
    else Bad
  }

  function Pieces(parts: seq<string>): Found
    decreases |parts|
  {
    if parts == [] then Numbers([])
    else
      var (found, more) := (Pieces(parts[..|parts| - 1]), Piece(parts[|parts| - 1]));
      if found.Bad? || more.Bad? then Bad else Numbers(found.numbers + more.numbers)
  }

  /** `read_indices` of a string. */
  function Read(value: string): Result {
    if Strip(value) == "" then Refused
    else
      match Pieces(Split(value, ','))
      case Bad => Refused
      case Numbers(found) => if found == [] then Refused else Ok(SortedSet(found))
  }

  method ReadIndices(value: string) returns (r: Result)
    ensures r == Read(value)
  {
    if Strip(value) == "" { return Refused; }
    var parts := Split(value, ',');
    var found := [];
    for k := 0 to |parts|
      invariant Pieces(parts[..k]) == Numbers(found)
    {
      assert parts[..k + 1][..k] == parts[..k];
      match Piece(parts[k])
      case Bad =>
        BadStays(parts, k + 1);
        return Refused;
      case Numbers(more) => found := found + more;
    }
    assert parts[..|parts|] == parts;
    r := if found == [] then Refused else Ok(SortedSet(found));
  }

  lemma {:induction false} BadStays(parts: seq<string>, k: nat)
    requires k <= |parts| && Pieces(parts[..k]).Bad?
    ensures Pieces(parts).Bad?
    decreases |parts| - k
  {
    if k == |parts| {
      assert parts[..k] == parts;
    } else {
      assert parts[..k + 1][..k] == parts[..k];
      BadStays(parts, k + 1);
    }
  }

  /** The entry names the number. */
  predicate Names(part: string, i: nat) {
    Piece(part).Numbers? && i in Piece(part).numbers
  }

  ghost predicate Named(parts: seq<string>, i: nat) {
    exists k :: 0 <= k < |parts| && Names(parts[k], i)
  }

  lemma {:induction false} NamedSnoc(parts: seq<string>, last: string, i: nat)
    ensures Named(parts + [last], i) <==> Named(parts, i) || Names(last, i)
  {
    var all := parts + [last];
    if k :| 0 <= k < |parts| && Names(parts[k], i) { assert all[k] == parts[k]; }
    if Names(last, i) { assert all[|parts|] == last; }
    if k :| 0 <= k < |all| && Names(all[k], i) { assert k < |parts| ==> all[k] == parts[k]; }
  }

  lemma {:induction false} PiecesName(parts: seq<string>, i: nat)
    requires Pieces(parts).Numbers?
    ensures i in Pieces(parts).numbers <==> Named(parts, i)
    decreases |parts|
  {
    if parts != [] {
      var n := |parts| - 1;
      PiecesName(parts[..n], i);
      NamedSnoc(parts[..n], parts[n], i);
      assert parts == parts[..n] + [parts[n]];
    }
  }

  /** What is accepted reads as the strictly increasing list of just the numbers its entries name. */
  lemma {:induction false} ReadsWhatItNames(value: string, i: nat)
    requires Read(value).Ok?
    ensures Increasing(Read(value).indices)
    ensures i in Read(value).indices <==> Named(Split(value, ','), i)
  {
    PiecesName(Split(value, ','), i);
    SortedSetExact(Pieces(Split(value, ',')).numbers);
  }

  // ---------------------------------------------------------------- printing

  function Printed(s: seq<nat>): (r: seq<string>)
    ensures |r| == |s| && forall k | 0 <= k < |s| :: r[k] == Print(s[k])
  {
    if s == [] then [] else [Print(s[0])] + Printed(s[1..])
  }

  predicate Contiguous(ordered: seq<nat>) {
    |ordered| > 1 && ordered[|ordered| - 1] == ordered[0] + |ordered| - 1
  }

  /** `compact_indices`. */
  function Compact(indices: seq<nat>): string {
    var ordered := Sorted(indices);
    if Contiguous(ordered) then Print(ordered[0]) + "-" + Print(ordered[|ordered| - 1])
    else Join(Printed(ordered), ',')
  }

  lemma {:induction false} NumberPiece(n: nat)
    ensures Piece(Print(n)) == Numbers([n])
  {
    IntPrint(n);
  }

  ghost predicate IsNumber(part: string, n: nat) {
    Piece(part) == Numbers([n])
  }

  lemma {:induction false} NumbersPieces(parts: seq<string>, s: seq<nat>)
    requires |parts| == |s| && forall k | 0 <= k < |s| :: IsNumber(parts[k], s[k])
    ensures Pieces(parts) == Numbers(s)
    decreases |parts|
  {
    if parts != [] {
      var n := |s| - 1;
      NumbersPieces(parts[..n], s[..n]);
      assert s == s[..n] + [s[n]];
    }
  }

  lemma {:induction false} RangePiece(first: nat, last: nat)
    requires first <= last
    ensures var t := Print(first) + "-" + Print(last);
            ',' !in t && Strip(t) == t && t != "" && Piece(t) == Numbers(Range(first, last))
  {
    var low, high := Print(first), Print(last);
    var t := low + "-" + high;
    assert Digit(low[0]) && Digit(high[|high| - 1]);
    assert t[0] == low[0] && t[|t| - 1] == high[|high| - 1];
    assert t[|low|] == '-';
    FirstDash(low, high);
    assert t[|low| + 1..] == high;
    IntPrint(first);
    IntPrint(last);
  }

  lemma {:induction false} FirstDash(low: string, high: string)
    requires '-' !in low
    ensures '-' in low + "-" + high && Before(low + "-" + high, '-') == low
    decreases |low|
  {
    var t := low + "-" + high;
    assert t[|low|] == '-';
    if low != "" {
      FirstDash(low[1..], high);
      assert t[1..] == low[1..] + "-" + high && t[0] == low[0];
      assert low == [low[0]] + low[1..];
    }
  }

  lemma {:induction false} JoinedNotBlank(s: seq<nat>)
    requires s != []
    ensures Strip(Join(Printed(s), ',')) != ""
  {
    var t := Join(Printed(s), ',');
    assert t[0] == Print(s[0])[0];
    assert Digit(t[0]);
    StartsPlain(t);
  }

  lemma {:induction false} StartsPlain(t: string)
    requires t != "" && !Blank(t[0])
    ensures Strip(t) != ""
    decreases |t|
  {
    if Blank(t[|t| - 1]) { StartsPlain(t[..|t| - 1]); }
  }

  lemma {:induction false} ReadsList(s: seq<nat>)
    requires s != []
    ensures Read(Join(Printed(s), ',')) == Ok(SortedSet(s))
  {
    forall p | p in Printed(s) ensures ',' !in p { }
    SplitJoin(Printed(s), ',');
    forall k | 0 <= k < |s| ensures IsNumber(Printed(s)[k], s[k]) { NumberPiece(s[k]); }
    NumbersPieces(Printed(s), s);
    JoinedNotBlank(s);
  }

  lemma {:induction false} ReadsRange(first: nat, last: nat)
    requires first <= last
    ensures Read(Print(first) + "-" + Print(last)) == Ok(Range(first, last))
  {
    var t := Print(first) + "-" + Print(last);
    RangePiece(first, last);
    SplitOne(t, ',');
    assert [t][..0] == [] && Pieces([]) == Numbers([]);
    assert Pieces([t]) == Numbers(Range(first, last)) by { assert [] + Range(first, last) == Range(first, last); }
    SortedSetExact(Range(first, last));
    OneOrder(SortedSet(Range(first, last)), Range(first, last));
  }

  lemma {:induction false} SortedSetOfSorted(s: seq<nat>)
    ensures SortedSet(Sorted(s)) == SortedSet(s)
  {
    SortedSorts(s);
    SortedSetExact(s);
    SortedSetExact(Sorted(s));
    OneOrder(SortedSet(Sorted(s)), SortedSet(s));
  }

  ghost predicate NoRepetition(s: seq<nat>) {
    Increasing(Sorted(s))
  }

  /** A sorted list that spans its length minus one is a range just when it repeats nothing. */
  lemma {:induction false} ContiguousRange(s: seq<nat>)
    requires NonDecreasing(s) && Contiguous(s)
    ensures Once(s) == Range(s[0], s[|s| - 1]) <==> Increasing(s)
  {
    OnceIncreases(s);
    var r := Range(s[0], s[|s| - 1]);
    assert |r| == |s|;
    if Increasing(s) {
      Dense(s);
      OneOrder(Once(s), r);
    }
  }

  /** A strictly increasing list that spans its length minus one has every number between. */
  lemma {:induction false} Dense(s: seq<nat>)
    requires Increasing(s) && |s| > 0 && s[|s| - 1] == s[0] + |s| - 1
    ensures forall i | s[0] <= i <= s[|s| - 1] :: i in s
    ensures forall i | i in s :: s[0] <= i <= s[|s| - 1]
  {
    forall k | 0 <= k < |s| ensures s[k] == s[0] + k {
      Apart(s, 0, k);
      Apart(s, k, |s| - 1);
    }
    forall i | s[0] <= i <= s[|s| - 1] ensures i in s { assert s[i - s[0]] == i; }
  }

  lemma {:induction false} Apart(s: seq<nat>, i: nat, j: nat)
    requires Increasing(s) && i <= j < |s|
    ensures s[j] - s[i] >= j - i
    decreases j
  {
    if i < j {
      Apart(s, i, j - 1);
      assert s[j - 1] < s[j];
    }
  }

  /**
    What is printed reads back as the indices, sorted and each once, just when it does not take a
    list with a repetition for a range.
  */
  lemma {:induction false} RoundTripExact(indices: seq<nat>)
    requires indices != []
    ensures Read(Compact(indices)) == Ok(SortedSet(indices))
            <==> !(Contiguous(Sorted(indices)) && !NoRepetition(indices))
  {
    var ordered := Sorted(indices);
    SortedSorts(indices);
    if Contiguous(ordered) {
      ReadsRange(ordered[0], ordered[|ordered| - 1]);
      ContiguousRange(ordered);
    } else {
      ReadsList(ordered);
      SortedSetOfSorted(indices);
    }
  }

  /** For a set of indices, the round trip gives the set, sorted. */
  lemma {:induction false} SetRoundTrip(indices: seq<nat>)
    requires indices != [] && forall i, j | 0 <= i < j < |indices| :: indices[i] != indices[j]
    ensures Read(Compact(indices)) == Ok(SortedSet(indices))
  {
    DistinctSorted(indices);
    RoundTripExact(indices);
  }

  lemma {:induction false} DistinctSorted(s: seq<nat>)
    requires forall i, j | 0 <= i < j < |s| :: s[i] != s[j]
    ensures Increasing(Sorted(s))
    decreases |s|
  {
    if s != [] {
      DistinctSorted(s[1..]);
      SortedSorts(s[1..]);
      InsertNew(s[0], Sorted(s[1..]));
    }
  }

  lemma {:induction false} InsertNew(n: nat, s: seq<nat>)
    requires Increasing(s) && n !in s
    ensures Increasing(Insert(n, s)) && forall x :: x in Insert(n, s) <==> x == n || x in s
    decreases |s|
  {
    if s != [] {
      assert s == [s[0]] + s[1..];
      if n > s[0] {
        InsertNew(n, s[1..]);
        ConsIncreasing(s[0], Insert(n, s[1..]));
      } else {
        ConsIncreasing(n, s);
      }
    }
  }

  /** Two cards 0 and one card 2 print as the range 0-2, which reads as three cards. */
  lemma {:induction false} RepetitionMisread()
    ensures Compact([0, 0, 2]) == Print(0) + "-" + Print(2)
    ensures Read(Compact([0, 0, 2])) == Ok([0, 1, 2]) && SortedSet([0, 0, 2]) == [0, 2]
  {
    assert [0, 0, 2][1..] == [0, 2] && [0, 2][1..] == [2] && [2][1..] == [];
    assert Sorted([2]) == [2] && Sorted([0, 2]) == [0, 2] && Sorted([0, 0, 2]) == [0, 0, 2];
    ReadsRange(0, 2);
    OneOrder(Range(0, 2), [0, 1, 2]);
    assert Once([0, 2]) == [0, 2] && Once([0, 0, 2]) == Once([0, 2]);
  }

  // ---------------------------------------------------------------- which texts are read, and as what

  /** Digits are decimal, and a printed number has no digit it does not need. */
  lemma {:induction false} DecimalExact(s: string, c: char, n: nat)
    requires (s == "" || IsDigits(s)) && Digit(c)
    ensures Int("") == 0 && IsDigits(s + [c]) && Int(s + [c]) == 10 * Int(s) + (c as int - 48)
    ensures n > 0 ==> Print(n)[0] != '0'
    ensures Print(0) == "0"
    decreases n
  {
    assert (s + [c])[..|s|] == s;
    if n >= 10 { DecimalExact(s, c, n / 10); }
  }

  /** Pieces put together with the separator are the text, and none has the separator in it. */
  lemma {:induction false} JoinSplit(s: string, at: char)
    ensures Join(Split(s, at), at) == s && forall k | 0 <= k < |Split(s, at)| :: at !in Split(s, at)[k]
    decreases |s|
  {
    if s != "" {
      JoinSplit(s[1..], at);
      assert s == [s[0]] + s[1..];
      var rest := Split(s[1..], at);
      if s[0] == at {
        assert ([""] + rest)[1..] == rest;
        assert Join([""] + rest, at) == "" + [at] + Join(rest, at);
      } else {
        JoinFirst(s[0], rest, at);
        assert Split(s, at)[0] == [s[0]] + rest[0];
      }
    }
  }

  lemma {:induction false} JoinFirst(c: char, parts: seq<string>, at: char)
    requires parts != []
    ensures Join([[c] + parts[0]] + parts[1..], at) == [c] + Join(parts, at)
  {
    var more := [[c] + parts[0]] + parts[1..];
    assert more[1..] == parts[1..];
    if |parts| > 1 { assert [c] + parts[0] + [at] + Join(parts[1..], at) == [c] + (parts[0] + [at] + Join(parts[1..], at)); }
  }

  ghost predicate AsNumber(part: string, before: string, digits: string, after: string) {
    part == before + digits + after && Spaces(before) && Spaces(after) && IsDigits(digits)
  }

  ghost predicate AsRange(part: string, a: string, low: string, b: string, c: string, high: string, d: string) {
    part == a + low + b + "-" + c + high + d && Spaces(a) && Spaces(b) && Spaces(c) && Spaces(d) && IsDigits(low) && IsDigits(high)
  }

  lemma {:induction false} DigitsTight(s: string)
    requires IsDigits(s)
    ensures Tight(s) && '-' !in s
  {
    assert Digit(s[0]) && Digit(s[|s| - 1]);
    BlankIs(s[0]);
    BlankIs(s[|s| - 1]);
  }

  /** Digits, with whitespace around them, are the number. */
  lemma {:induction false} NumberEntry(part: string, before: string, digits: string, after: string)
    requires AsNumber(part, before, digits, after)
    ensures Piece(part) == Numbers([Int(digits)])
  {
    DigitsTight(digits);
    StripExact(before, digits, after);
  }

  lemma {:induction false} NoDash(s: string)
    requires Spaces(s)
    ensures '-' !in s
  {
  }

  lemma {:induction false} DashAt(s: string, t: string)
    requires '-' !in s
    ensures '-' in s + "-" + t && Before(s + "-" + t, '-') == s && (s + "-" + t)[|s| + 1..] == t
  {
    FirstDash(s, t);
  }

  lemma {:induction false} RangeStripped(part: string, a: string, low: string, b: string, c: string, high: string, d: string)
    requires AsRange(part, a, low, b, c, high, d)
    ensures Strip(part) == (low + b) + "-" + (c + high)
    ensures Strip(low + b) == low && Strip(c + high) == high
  {
    DigitsTight(low);
    DigitsTight(high);
    var piece := (low + b) + "-" + (c + high);
    assert piece[0] == low[0] && piece[|piece| - 1] == high[|high| - 1];
    assert part == a + piece + d;
    StripExact(a, piece, d);
    StripExact("", low, b);
    StripExact(c, high, "");
    assert "" + low + b == low + b && c + high + "" == c + high;
  }

  lemma {:induction false} RangeParts(piece: string, low: string, high: string)
    requires '-' !in low && piece == low + "-" + high && Strip(piece) == piece
    requires IsDigits(Strip(low)) && IsDigits(Strip(high))
    ensures Piece(piece) == if Int(Strip(high)) < Int(Strip(low)) then Bad else Numbers(Range(Int(Strip(low)), Int(Strip(high))))
  {
    DashAt(low, high);
  }

  lemma {:induction false} StripTwice(s: string)
    ensures Strip(Strip(s)) == Strip(s)
  {
    var before, after := StripParts(s);
    StripExact("", Strip(s), "");
    assert "" + Strip(s) + "" == Strip(s);
  }

  /** Two of them around a dash are every number from the first to the second, unless they run backwards. */
  lemma {:induction false} RangeEntry(part: string, a: string, low: string, b: string, c: string, high: string, d: string)
    requires AsRange(part, a, low, b, c, high, d)
    ensures if Int(high) < Int(low) then Piece(part) == Bad
            else Piece(part).Numbers? && forall i :: i in Piece(part).numbers <==> Int(low) <= i <= Int(high)
  {
    DigitsTight(low);
    NoDash(b);
    RangeStripped(part, a, low, b, c, high, d);
    StripTwice(part);
    RangeParts(Strip(part), low + b, c + high);
    assert Piece(part) == Piece(Strip(part));
  }

  lemma {:induction false} RangeFound(part: string) returns (first: string, last: string)
    requires Piece(part).Numbers? && '-' in Strip(part)
    ensures Strip(part) == first + "-" + last && IsDigits(Strip(first)) && IsDigits(Strip(last))
  {
    first := Before(Strip(part), '-');
    last := Strip(part)[|first| + 1..];
  }

  lemma {:induction false} RangeSplit(part: string, x: string, y: string, first: string, last: string)
      returns (a: string, low: string, b: string, c: string, high: string, d: string)
    requires part == x + (first + "-" + last) + y && Spaces(x) && Spaces(y) && IsDigits(Strip(first)) && IsDigits(Strip(last))
    ensures AsRange(part, a, low, b, c, high, d)
  {
    low, high := Strip(first), Strip(last);
    a, b := StripParts(first);
    c, d := StripParts(last);
    Outside(x, a);
    Outside(d, y);
    assert x + first == x + a + low + b && last + y == c + high + (d + y);
    RangeForm(part, x + a, low, b, c, high, d + y, first, last, x, y);
    a, d := x + a, d + y;
  }

  /** Nothing else is read. */
  lemma {:induction false} EntryForms(part: string) returns (a: string, low: string, b: string, c: string, high: string, d: string)
    requires Piece(part).Numbers?
    ensures AsNumber(part, a, low, d) || AsRange(part, a, low, b, c, high, d)
  {
    a, d := StripParts(part);
    low, b, c, high := Strip(part), "", "", "";
    if '-' in Strip(part) {
      var first, last := RangeFound(part);
      a, low, b, c, high, d := RangeSplit(part, a, d, first, last);
    }
  }

  lemma {:induction false} Outside(a: string, b: string)
    requires Spaces(a) && Spaces(b)
    ensures Spaces(a + b)
  {
  }

  lemma {:induction false} RangeForm(part: string, a: string, low: string, b: string, c: string, high: string, d: string,
                                     first: string, last: string, x: string, y: string)
    requires part == x + (first + "-" + last) + y
    requires x + first == a + low + b && last + y == c + high + d
    requires Spaces(a) && Spaces(b) && Spaces(c) && Spaces(d) && IsDigits(low) && IsDigits(high)
    ensures AsRange(part, a, low, b, c, high, d)
  {
    assert part == (x + first) + "-" + (last + y);
    assert a + low + b + "-" + (c + high + d) == a + low + b + "-" + c + high + d;
  }

  lemma {:induction false} BadOne(parts: seq<string>)
    ensures Pieces(parts).Bad? <==> exists k :: 0 <= k < |parts| && Piece(parts[k]).Bad?
    ensures Pieces(parts).Numbers? && parts != [] ==> Pieces(parts).numbers != []
    decreases |parts|
  {
    if parts != [] {
      var n := |parts| - 1;
      BadOne(parts[..n]);
      if Piece(parts[n]).Numbers? { PieceNames(parts[n]); }
      assert forall k | 0 <= k < n :: parts[..n][k] == parts[k];
    }
  }

  lemma {:induction false} PieceNames(part: string)
    requires Piece(part).Numbers?
    ensures Piece(part).numbers != []
  {
  }

  /** A text is refused just when one of its entries is. */
  lemma {:induction false} RefusedExactly(value: string)
    ensures Read(value).Refused? <==> exists k :: 0 <= k < |Split(value, ',')| && Piece(Split(value, ',')[k]).Bad?
  {
    var parts := Split(value, ',');
    BadOne(parts);
    if Strip(value) == "" {
      var before, after := StripParts(value);
      assert value == before + after;
      assert Spaces(value) by { forall i | 0 <= i < |value| ensures value[i] == if i < |before| then before[i] else after[i - |before|] {} }
      assert ',' !in value;
      SplitOne(value, ',');
      assert Piece(parts[0]).Bad?;
    }
  }

  lemma {:induction false} InsertKeeps(n: nat, s: seq<nat>)
    ensures multiset(Insert(n, s)) == multiset(s) + multiset{n}
    decreases |s|
  {
    if s != [] {
      assert s == [s[0]] + s[1..];
      InsertKeeps(n, s[1..]);
    }
  }

  lemma {:induction false} SortedKeeps(s: seq<nat>)
    ensures multiset(Sorted(s)) == multiset(s)
    decreases |s|
  {
    if s != [] {
      assert s == [s[0]] + s[1..];
      SortedKeeps(s[1..]);
      InsertKeeps(s[0], Sorted(s[1..]));
    }
  }

  lemma {:induction false} LeastFirst(s: seq<nat>)
    requires NonDecreasing(s) && s != []
    ensures NonDecreasing(s[1..]) && multiset(s[1..]) == multiset(s) - multiset{s[0]}
    ensures s[0] in multiset(s) && forall x | x in multiset(s) :: s[0] <= x
  {
    assert s == [s[0]] + s[1..];
    assert forall i | 0 <= i < |s[1..]| :: s[1..][i] == s[i + 1];
  }

  lemma {:induction false} SameLeast(s: seq<nat>, t: seq<nat>)
    requires NonDecreasing(s) && NonDecreasing(t) && multiset(s) == multiset(t) && s != []
    ensures t != [] && s[0] == t[0] && multiset(s[1..]) == multiset(t[1..])
  {
    LeastFirst(s);
    assert s[0] in multiset(t);
    LeastFirst(t);
    assert t[0] in multiset(s);
  }

  /** Two sortings of the same numbers are one. */
  lemma {:induction false} OneSorting(s: seq<nat>, t: seq<nat>)
    requires NonDecreasing(s) && NonDecreasing(t) && multiset(s) == multiset(t)
    ensures s == t
    decreases |s|
  {
    if s == [] {
      if t != [] { SameLeast(t, s); }
    } else {
      SameLeast(s, t);
      LeastFirst(s);
      LeastFirst(t);
      OneSorting(s[1..], t[1..]);
      assert s == [s[0]] + s[1..] && t == [t[0]] + t[1..];
    }
  }

  /**
    More than one index that, in order, span their number minus one are printed as the first, a dash and the
    last; all others one by one with commas in between.
  */
  lemma {:induction false} CompactExact(indices: seq<nat>, t: seq<nat>)
    requires NonDecreasing(t) && multiset(t) == multiset(indices)
    ensures Compact(indices) == if |t| > 1 && t[|t| - 1] - t[0] == |t| - 1 then Print(t[0]) + "-" + Print(t[|t| - 1]) else Join(Printed(t), ',')
  {
    SortedSorts(indices);
    SortedKeeps(indices);
    OneSorting(Sorted(indices), t);
  }
}
