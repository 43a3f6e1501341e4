/**
  Finding the one-shot driver's outcome in a stream that also carries whatever the user's code
  printed: `_emit` writes it between two markers, `split_output` takes it out again.

  The last begin marker counts, and after it the first end marker. What the user printed may hold
  either marker any number of times, whole or in part, and its end may look like the start of one.
  What the driver writes is a line end, the begin marker, base64 and the end marker, so the question
  is only whether a marker can begin inside of that other than where one was written; the proof goes
  through the two underscores and the letter that both markers begin with.
*/
module OneShot {
  import opened Strings

  const BEGIN := "__LETIFY_RESULT_BEGIN__"
  const END := "__LETIFY_RESULT_END__"

  /** str.rfind over starts up to `i`: the last start, or -1. */
  function LastAt(part: string, s: string, i: int): (r: int)
    ensures r == -1 || (r <= i && OccursAt(part, s, r))
    ensures forall k | r < k <= i :: !OccursAt(part, s, k)
    decreases i + 1
  {
    if i < 0 then -1 else if OccursAt(part, s, i) then i else LastAt(part, s, i - 1)
  }

  /** str.find from `i`: the first start, or -1. */
  function FirstAt(part: string, s: string, i: nat): (r: int)
    ensures r == -1 || (i <= r && OccursAt(part, s, r))
    ensures forall k | i <= k && (r == -1 || k < r) :: !OccursAt(part, s, k)
    decreases |s| - i
  {
    if i > |s| then -1
    else if OccursAt(part, s, i) then i
    else if i == |s| then -1
    else FirstAt(part, s, i + 1)
  }

  datatype Outcome = NoOutcome | Encoded(text: string)

  /** `split_output`: the user's output, and the encoded outcome when both markers are there. */
  function SplitOutput(stdout: string): (string, Outcome) {
    var start := LastAt(BEGIN, stdout, |stdout|);
    if start == -1 then (stdout, NoOutcome)
    else
      var stop := FirstAt(END, stdout, start);
      if stop == -1 then (stdout, NoOutcome)
      else
        (stdout[..start] + stdout[stop + |END|..],
         Encoded(Strip(if start + |BEGIN| <= stop then stdout[start + |BEGIN|..stop] else "")))
  }

  lemma {:induction false} MarkersDiffer(s: string, i: int)
    requires OccursAt(BEGIN, s, i)
    ensures !OccursAt(END, s, i)
  {
    assert s[i..i + |BEGIN|][16] == s[i + 16] == 'B';
  }

  /** The base64 alphabet with its padding; what matters is that '_' is not in it. */
  predicate Symbol(c: char) {
    'A' <= c <= 'Z' || 'a' <= c <= 'z' || '0' <= c <= '9' || c == '+' || c == '/' || c == '='
  }

  ghost predicate Base64(s: string) {
    forall i | 0 <= i < |s| :: Symbol(s[i])
  }

  /** What is on stdout after the driver emitted its outcome. */
  function Emitted(user: string, encoded: string): string {
    user + "\n" + BEGIN + encoded + END + "\n"
  }

  /** The character `j` places after the begin marker's start. */
  function After(encoded: string, j: nat): (c: char)
    requires j < |BEGIN| + |encoded| + |END| + 1
  {
    if j < |BEGIN| then BEGIN[j]
    else if j < |BEGIN| + |encoded| then encoded[j - |BEGIN|]
    else if j < |BEGIN| + |encoded| + |END| then END[j - |BEGIN| - |encoded|]
    else '\n'
  }

  lemma {:induction false} MarkerChar(user: string, encoded: string, part: string, j: nat, k: nat)
    requires k < |part|
    requires OccursAt(part, Emitted(user, encoded), |user| + 1 + j)
    ensures j + |part| <= |BEGIN| + |encoded| + |END| + 1 && After(encoded, j + k) == part[k]
  {
    var s := Emitted(user, encoded);
    var at := |user| + 1 + j;
    assert |s| == |user| + 1 + |BEGIN| + |encoded| + |END| + 1;
    assert s[at..at + |part|][k] == s[at + k];
  }

  ghost predicate HeadAt(encoded: string, j: nat)
    requires j + 2 < |BEGIN| + |encoded| + |END| + 1
  {
    After(encoded, j) == '_' && After(encoded, j + 1) == '_' && After(encoded, j + 2) == 'L'
  }

  lemma {:induction false} NoHead(encoded: string, j: nat)
    requires Base64(encoded) && 0 < j && j != |BEGIN| - 2 && j != |BEGIN| + |encoded|
    requires j + 2 < |BEGIN| + |encoded| + |END| + 1
    ensures !HeadAt(encoded, j)
  {
    if j < |BEGIN| - 2 {
    } else if j < |BEGIN| + |encoded| {
    } else if j > |BEGIN| + |encoded| {
    }
  }

  lemma {:induction false} FirstThree(user: string, encoded: string, part: string, j: nat)
    requires |part| >= 3 && OccursAt(part, Emitted(user, encoded), |user| + 1 + j)
    ensures j + |part| <= |BEGIN| + |encoded| + |END| + 1
    ensures After(encoded, j) == part[0] && After(encoded, j + 1) == part[1] && After(encoded, j + 2) == part[2]
  {
    MarkerChar(user, encoded, part, j, 0);
    MarkerChar(user, encoded, part, j, 1);
    MarkerChar(user, encoded, part, j, 2);
  }

  lemma {:induction false} MarkerHasHead(user: string, encoded: string, part: string, j: nat)
    requires part == BEGIN || part == END
    requires OccursAt(part, Emitted(user, encoded), |user| + 1 + j)
    ensures j + 2 < |BEGIN| + |encoded| + |END| + 1 && HeadAt(encoded, j)
  {
    FirstThree(user, encoded, part, j);
  }

  /** A marker that used the begin marker's last two underscores would need an underscore inside the base64. */
  lemma {:induction false} Straddles(encoded: string, part: string)
    requires Base64(encoded) && (part == BEGIN || part == END)
    requires |part| - 2 <= |encoded| + |END| + 1
    ensures exists k :: 0 <= k < |part| && After(encoded, |BEGIN| - 2 + k) != part[k]
  {
    var n := |encoded|;
    if n < 6 {
      assert After(encoded, |BEGIN| - 2 + (n + 2)) == '_' && part[n + 2] != '_';
    } else if n == 6 {
      assert After(encoded, |BEGIN| - 2 + 9) == END[1] == '_' && part[9] == 'R';
    } else {
      assert After(encoded, |BEGIN| - 2 + 8) == encoded[6] && Symbol(encoded[6]) && part[8] == '_';
    }
  }

  lemma {:induction false} NoStraddle(user: string, encoded: string, part: string)
    requires Base64(encoded) && (part == BEGIN || part == END)
    ensures !OccursAt(part, Emitted(user, encoded), |user| + 1 + |BEGIN| - 2)
  {
    if OccursAt(part, Emitted(user, encoded), |user| + 1 + (|BEGIN| - 2)) {
      Straddles(encoded, part);
    }
  }

  /** Inside what the driver wrote, a marker starts only where one of the two was written. */
  lemma {:induction false} MarkersStart(user: string, encoded: string, part: string, j: nat)
    requires Base64(encoded) && (part == BEGIN || part == END)
    requires OccursAt(part, Emitted(user, encoded), |user| + 1 + j)
    ensures j == 0 || j == |BEGIN| + |encoded|
  {
    MarkerHasHead(user, encoded, part, j);
    NoStraddle(user, encoded, part);
    if 0 < j && j != |BEGIN| - 2 && j != |BEGIN| + |encoded| { NoHead(encoded, j); }
  }

  lemma {:induction false} BeginIsThere(user: string, encoded: string)
    ensures OccursAt(BEGIN, Emitted(user, encoded), |user| + 1)
  {
    var s := Emitted(user, encoded);
    assert s == user + "\n" + (BEGIN + (encoded + END + "\n"));
  }

  lemma {:induction false} EndIsThere(user: string, encoded: string)
    ensures OccursAt(END, Emitted(user, encoded), |user| + 1 + |BEGIN| + |encoded|)
  {
    var s := Emitted(user, encoded);
    assert s == user + "\n" + BEGIN + encoded + (END + "\n");
  }

  lemma {:induction false} BeginFound(user: string, encoded: string)
    requires Base64(encoded)
    ensures var s := Emitted(user, encoded); LastAt(BEGIN, s, |s|) == |user| + 1
  {
    var s := Emitted(user, encoded);
    BeginIsThere(user, encoded);
    EndIsThere(user, encoded);
    var r := LastAt(BEGIN, s, |s|);
    assert r >= |user| + 1;
    MarkersStart(user, encoded, BEGIN, r - |user| - 1);
    if OccursAt(BEGIN, s, |user| + 1 + |BEGIN| + |encoded|) { MarkersDiffer(s, |user| + 1 + |BEGIN| + |encoded|); }
  }

  lemma {:induction false} EndFound(user: string, encoded: string)
    requires Base64(encoded)
    ensures var s := Emitted(user, encoded); FirstAt(END, s, |user| + 1) == |user| + 1 + |BEGIN| + |encoded|
  {
    var s := Emitted(user, encoded);
    EndIsThere(user, encoded);
    BeginIsThere(user, encoded);
    MarkersDiffer(s, |user| + 1);
    var r := FirstAt(END, s, |user| + 1);
    assert |user| + 1 <= r <= |user| + 1 + |BEGIN| + |encoded|;
    MarkersStart(user, encoded, END, r - |user| - 1);
  }

  lemma {:induction false} Parts(user: string, encoded: string)
    ensures var s := Emitted(user, encoded); var start := |user| + 1; var stop := start + |BEGIN| + |encoded|;
            s[..start] == user + "\n" && s[stop + |END|..] == "\n" && s[start + |BEGIN|..stop] == encoded
  {
  }

  /**
    Whatever the user printed, either marker and parts of them included, the outcome is the one
    the driver emitted, and the user's output is all but the marked span.
  */
  lemma {:induction false} OutcomeFound(user: string, encoded: string)
    requires Base64(encoded)
    ensures SplitOutput(Emitted(user, encoded)) == (user + "\n" + "\n", Encoded(encoded))
  {
    var s := Emitted(user, encoded);
    BeginFound(user, encoded);
    EndFound(user, encoded);
    Parts(user, encoded);
  }

  /** With no begin marker anywhere there is no outcome, and the output is left as it is. */
  lemma {:induction false} NoMarker(stdout: string)
    requires forall i :: !OccursAt(BEGIN, stdout, i)
    ensures SplitOutput(stdout) == (stdout, NoOutcome)
  {
  }

  ghost predicate At(part: string, s: string, i: int) {
    0 <= i <= |s| - |part| && s[i..i + |part|] == part
  }

  /**
    Of any output: from the last begin marker to the end of the first end marker after its start is taken
    out, and the text between them is the outcome without the whitespace around it.
  */
  lemma {:induction false} SplitExact(stdout: string, start: nat, stop: nat) returns (before: string, after: string)
    requires At("__LETIFY_RESULT_BEGIN__", stdout, start) && forall k | k > start :: !At("__LETIFY_RESULT_BEGIN__", stdout, k)
    requires At("__LETIFY_RESULT_END__", stdout, stop) && forall k | start <= k < stop :: !At("__LETIFY_RESULT_END__", stdout, k)
    requires start <= stop
    ensures Spaces(before) && Spaces(after)
    ensures var r := SplitOutput(stdout); var inside := if start + 23 <= stop then stdout[start + 23..stop] else "";
            && r.0 == stdout[..start] + stdout[stop + 21..]
            && r.1.Encoded? && inside == before + r.1.text + after && (r.1.text == "" || Tight(r.1.text))
  {
    FoundAt(stdout, start, stop);
    before, after := StripParts(if start + 23 <= stop then stdout[start + 23..stop] else "");
  }

  lemma {:induction false} FoundAt(stdout: string, start: nat, stop: nat)
    requires At(BEGIN, stdout, start) && forall k | k > start :: !At(BEGIN, stdout, k)
    ensures LastAt(BEGIN, stdout, |stdout|) == start
    ensures start <= stop && At(END, stdout, stop) && (forall k | start <= k < stop :: !At(END, stdout, k)) ==> FirstAt(END, stdout, start) == stop
    ensures (forall k | start <= k :: !At(END, stdout, k)) ==> FirstAt(END, stdout, start) == -1
  {
    forall k ensures (OccursAt(BEGIN, stdout, k) <==> At(BEGIN, stdout, k)) && (OccursAt(END, stdout, k) <==> At(END, stdout, k)) {}
  }

  /** Without an end marker after it there is no outcome, and the output is left as it is. */
  lemma {:induction false} NoEnd(stdout: string, start: nat)
    requires At("__LETIFY_RESULT_BEGIN__", stdout, start) && forall k | k > start :: !At("__LETIFY_RESULT_BEGIN__", stdout, k)
    requires forall k | start <= k :: !At("__LETIFY_RESULT_END__", stdout, k)
    ensures SplitOutput(stdout) == (stdout, NoOutcome)
  {
    FoundAt(stdout, start, start);
  }
}
