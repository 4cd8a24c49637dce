/** The response sanitizer `clean_json_response` (src/llm.rs): a best-effort
    recovery of one JSON object from a model's free text, in five stages:
    trim, strip a markdown fence, cut out the first brace-balanced object,
    drop raw control characters, and remove trailing commas.

    `Cleaned` states the pipeline as a composition of functions;
    `CleanJsonResponse` is the stage-by-stage procedure with the brace-counting
    scan loop, proved to compute it. Indices count characters where the Rust
    code counts UTF-8 bytes; every cut point is next to an ASCII character,
    so the two agree. */
module Sanitizer {
  import opened Wrappers
  import opened Strings

  // ---------------------------------------------------------------------
  // Stage 1: trimming (`str::trim`)

  /** Rust's `char::is_whitespace`: the Unicode White_Space property. */
  predicate IsWhitespace(c: char) {
    var n := c as int;
    (0x09 <= n <= 0x0D) || n == 0x20 || n == 0x85 || n == 0xA0 || n == 0x1680 ||
    (0x2000 <= n <= 0x200A) || n == 0x2028 || n == 0x2029 || n == 0x202F ||
    n == 0x205F || n == 0x3000
  }

  /** Where the leading run of whitespace ends. */
  function TrimStartIndex(s: string): (i: nat)
    ensures i <= |s|
    ensures forall k :: 0 <= k < i ==> IsWhitespace(s[k])
    ensures i < |s| ==> !IsWhitespace(s[i])
  {
    if s == [] || !IsWhitespace(s[0]) then 0 else 1 + TrimStartIndex(s[1..])
  }

  /** Where the trailing run of whitespace begins. */
  function TrimEndIndex(s: string): (j: nat)
    ensures j <= |s|
    ensures forall k :: j <= k < |s| ==> IsWhitespace(s[k])
    ensures j > 0 ==> !IsWhitespace(s[j - 1])
  {
    if s == [] || !IsWhitespace(s[|s| - 1]) then |s| else TrimEndIndex(s[..|s| - 1])
  }

  predicate IsTrimmed(s: string) {
    s == [] || (!IsWhitespace(s[0]) && !IsWhitespace(s[|s| - 1]))
  }

  /** `str::trim`: the text without leading and trailing whitespace. Only
      whitespace is removed, the rest is kept in place, and text that is
      already trimmed is returned unchanged. */
  function Trim(s: string): (r: string)
    ensures IsTrimmed(r)
    ensures exists i :: OccursAt(r, s, i) &&
                        (forall k :: 0 <= k < i ==> IsWhitespace(s[k])) &&
                        (forall k :: i + |r| <= k < |s| ==> IsWhitespace(s[k]))
    ensures IsTrimmed(s) ==> r == s
  {
    var i := TrimStartIndex(s);
    var t := s[i..];
    var j := TrimEndIndex(t);
    assert OccursAt(t[..j], s, i);
    t[..j]
  }

  /** Every character trimming keeps was in the input. */
  lemma TrimKeepsCharacters(s: string)
    ensures forall k :: 0 <= k < |Trim(s)| ==> Trim(s)[k] in s
  {
    var r := Trim(s);
    var i :| OccursAt(r, s, i);
    forall k | 0 <= k < |r| ensures r[k] in s {
      assert r[k] == s[i + k];
    }
  }

  predicate AllWhitespace(w: string) {
    forall k :: 0 <= k < |w| ==> IsWhitespace(w[k])
  }

  lemma {:induction false} TrimStartSkipsWhitespace(w: string, a: string)
    requires AllWhitespace(w) && a != [] && !IsWhitespace(a[0])
    ensures TrimStartIndex(w + a) == |w|
  {
    if w != [] {
      assert (w + a)[1..] == w[1..] + a;
      TrimStartSkipsWhitespace(w[1..], a);
    } else {
      assert w + a == a;
    }
  }

  lemma {:induction false} TrimEndSkipsWhitespace(a: string, w: string)
    requires AllWhitespace(w) && a != [] && !IsWhitespace(a[|a| - 1])
    ensures TrimEndIndex(a + w) == |a|
  {
    if w != [] {
      assert (a + w)[..|a + w| - 1] == a + w[..|w| - 1];
      TrimEndSkipsWhitespace(a, w[..|w| - 1]);
    } else {
      assert a + w == a;
    }
  }

  /** Trimming removes exactly the whitespace around a piece of text that
      starts and ends with something else. */
  lemma TrimRemovesSurroundingWhitespace(w1: string, a: string, w2: string)
    requires AllWhitespace(w1) && AllWhitespace(w2) && a != [] && IsTrimmed(a)
    ensures Trim(w1 + a + w2) == a
  {
    var s := w1 + a + w2;
    assert s == w1 + (a + w2);
    TrimStartSkipsWhitespace(w1, a + w2);
    assert s[|w1|..] == a + w2;
    TrimEndSkipsWhitespace(a, w2);
  }

  // ---------------------------------------------------------------------
  // Stage 2: the markdown fence

  const Fence: string := "```"

  predicate EndsWith(s: string, suffix: string) {
    |suffix| <= |s| && s[|s| - |suffix|..] == suffix
  }

  /** The first index of `c` in `s` (`str::find` with a char). */
  function IndexOf(s: string, c: char): (r: Option<nat>)
    ensures r.None? <==> c !in s
    ensures r.Some? ==> r.value < |s| && s[r.value] == c && c !in s[..r.value]
  {
    if s == [] then None
    else if s[0] == c then Some(0)
    else
      match IndexOf(s[1..], c)
      case None => None
      case Some(i) => assert s[..i + 1] == [s[0]] + s[1..][..i]; Some(i + 1)
  }

  /** The last index of `c` in `s` (`str::rfind` with a char). */
  function LastIndexOf(s: string, c: char): (r: Option<nat>)
    ensures r.None? <==> c !in s
    ensures r.Some? ==> r.value < |s| && s[r.value] == c && c !in s[r.value + 1..]
  {
    if s == [] then None
    else if s[|s| - 1] == c then Some(|s| - 1)
    else
      match LastIndexOf(s[..|s| - 1], c)
      case None => assert s == s[..|s| - 1] + [s[|s| - 1]]; None
      case Some(i) => assert s[i + 1..] == s[..|s| - 1][i + 1..] + [s[|s| - 1]]; Some(i)
  }

  /** A leading fence loses everything up to and including the first line
      break (or just the three backticks when there is none), and then a
      trailing fence is dropped. Text not starting with a fence is kept. */
  function StripFence(s: string): string {
    if Fence <= s then
      var t := match IndexOf(s, '\n')
               case Some(i) => s[i + 1..]
               case None => s[|Fence|..];
      if EndsWith(t, Fence) then t[..|t| - |Fence|] else t
    else s
  }

  /** Fencing a body, with or without a language tag on the opening line,
      is undone by the fence stage. */
  lemma StripFenceUnwraps(tag: string, body: string)
    requires '\n' !in tag
    ensures StripFence(Fence + tag + "\n" + body + Fence) == body
  {
    var s := Fence + tag + "\n" + body + Fence;
    var n := |Fence + tag|;
    assert s[..n] == Fence + tag;
    assert '\n' !in Fence;
    assert s[n] == '\n';
    assert IndexOf(s, '\n') == Some(n);
    assert s[n + 1..] == body + Fence;
  }

  // ---------------------------------------------------------------------
  // Stage 3: the brace-balanced object

  /** Nesting depth after reading `t`: opening braces minus closing ones. */
  function Depth(t: string): int {
    if t == [] then 0
    else Depth(t[..|t| - 1]) + (if t[|t| - 1] == '{' then 1 else if t[|t| - 1] == '}' then -1 else 0)
  }

  /** The brace-counting scan from index `i` with running count `count`:
      the index of the first `}` that brings the count back to zero. */
  function Scan(s: string, i: nat, count: int): Option<nat>
    requires i <= |s|
    decreases |s| - i
  {
    if i == |s| then None
    else if s[i] == '{' then Scan(s, i + 1, count + 1)
    else if s[i] == '}' then (if count - 1 == 0 then Some(i) else Scan(s, i + 1, count - 1))
    else Scan(s, i + 1, count)
  }

  /** The brace matching the `{` at `start`, found by depth counting. */
  function MatchingClose(s: string, start: nat): Option<nat>
    requires start <= |s|
  {
    Scan(s, start, 0)
  }

  lemma DepthStep(s: string, start: nat, i: nat)
    requires start <= i < |s|
    ensures Depth(s[start..i + 1]) ==
            Depth(s[start..i]) + (if s[i] == '{' then 1 else if s[i] == '}' then -1 else 0)
  {
    assert s[start..i + 1][..i - start] == s[start..i];
  }

  /** Every non-empty prefix of `s[start..hi]` leaves the depth positive. */
  ghost predicate DepthPositive(s: string, start: nat, hi: nat)
    requires start <= hi <= |s|
  {
    forall k :: start < k <= hi ==> Depth(s[start..k]) > 0
  }

  /** The `}` at `j` is the first point where the depth counted from
      `start` returns to zero. */
  ghost predicate ClosesAt(s: string, start: nat, j: nat) {
    start < j < |s| && s[j] == '}' && Depth(s[start..j + 1]) == 0 && DepthPositive(s, start, j)
  }

  lemma ExtendDepthPositive(s: string, start: nat, i: nat)
    requires start <= i < |s| && DepthPositive(s, start, i) && Depth(s[start..i + 1]) > 0
    ensures DepthPositive(s, start, i + 1)
  {
  }

  lemma {:induction false} ScanFindsFirstReturnToZero(s: string, start: nat, i: nat, count: int)
    requires start < i <= |s|
    requires count == Depth(s[start..i]) && DepthPositive(s, start, i)
    ensures Scan(s, i, count).Some? ==> i <= Scan(s, i, count).value && ClosesAt(s, start, Scan(s, i, count).value)
    ensures Scan(s, i, count).None? ==> DepthPositive(s, start, |s|)
    decreases |s| - i
  {
    if i < |s| {
      DepthStep(s, start, i);
      if s[i] == '{' {
        ExtendDepthPositive(s, start, i);
        ScanFindsFirstReturnToZero(s, start, i + 1, count + 1);
      } else if s[i] == '}' {
        if count - 1 != 0 {
          ExtendDepthPositive(s, start, i);
          ScanFindsFirstReturnToZero(s, start, i + 1, count - 1);
        }
      } else {
        ExtendDepthPositive(s, start, i);
        ScanFindsFirstReturnToZero(s, start, i + 1, count);
      }
    }
  }

  /** Depth counting from an opening brace stops at the first point where
      the depth returns to zero, which is a `}`; when it fails, the depth
      stays positive to the end of the text. */
  lemma MatchingCloseIsFirstReturnToZero(s: string, start: nat)
    requires start < |s| && s[start] == '{'
    ensures MatchingClose(s, start).Some? ==> ClosesAt(s, start, MatchingClose(s, start).value)
    ensures MatchingClose(s, start).None? ==> DepthPositive(s, start, |s|)
  {
    DepthStep(s, start, start);
    assert s[start..start] == [];
    ScanFindsFirstReturnToZero(s, start, start + 1, 1);
  }

  /** `t` is one brace-balanced object: it opens with `{`, closes with `}`,
      and its depth first returns to zero at its very end. */
  ghost predicate IsBalancedObject(t: string) {
    |t| >= 2 && t[0] == '{' && t[|t| - 1] == '}' && Depth(t) == 0 &&
    forall k :: 0 < k < |t| ==> Depth(t[..k]) > 0
  }

  /** The scan stops, if at all, on a `}` at or after where it starts. */
  lemma {:induction false} ScanStaysInside(s: string, i: nat, count: int)
    requires i <= |s|
    ensures Scan(s, i, count).Some? ==> i <= Scan(s, i, count).value < |s| && s[Scan(s, i, count).value] == '}'
    decreases |s| - i
  {
    if i < |s| {
      if s[i] == '{' {
        ScanStaysInside(s, i + 1, count + 1);
      } else if s[i] == '}' {
        if count - 1 != 0 {
          ScanStaysInside(s, i + 1, count - 1);
        }
      } else {
        ScanStaysInside(s, i + 1, count);
      }
    }
  }

  /** Cut the text to the first `{` and its depth-matched `}`; failing that,
      to the last `}` when it comes after the first `{`; failing that, keep
      it. */
  function ExtractObject(s: string): string {
    match IndexOf(s, '{')
    case None => s
    case Some(first) =>
      match MatchingClose(s, first)
      case Some(end) =>
        ScanStaysInside(s, first, 0);
        s[first..end + 1]
      case None =>
        match LastIndexOf(s, '}')
        case Some(fallback) =>
          if fallback > first then s[first..fallback + 1] else s
        case None => s
  }

  /** Text without `{` is kept, and a cut always runs from a `{` to a `}`
      and is a piece of the text. */
  lemma {:induction false} ExtractKeepsOrCuts(s: string)
    ensures '{' !in s ==> ExtractObject(s) == s
    ensures var r := ExtractObject(s);
            r == s || (|r| >= 2 && r[0] == '{' && r[|r| - 1] == '}' && IsInfix(r, s))
  {
    match IndexOf(s, '{')
    case None =>
    case Some(first) =>
      match MatchingClose(s, first)
      case Some(end) =>
        ScanStaysInside(s, first, 0);
        BracedCut(s, first, end);
        assert ExtractObject(s) == s[first..end + 1];
      case None =>
        match LastIndexOf(s, '}')
        case Some(fallback) =>
          if fallback > first {
            BracedCut(s, first, fallback);
            assert ExtractObject(s) == s[first..fallback + 1];
          }
        case None =>
  }

  /** The piece from a `{` to a later `}` starts and ends with them and
      occurs in the text. */
  lemma BracedCut(s: string, i: nat, j: nat)
    requires i < j < |s| && s[i] == '{' && s[j] == '}'
    ensures var r := s[i..j + 1];
            |r| >= 2 && r[0] == '{' && r[|r| - 1] == '}' && IsInfix(r, s)
  {
    assert OccursAt(s[i..j + 1], s, i);
  }

  /** When depth counting never closes, the cut runs to the last `}` if that
      `}` comes after the first `{`; otherwise the text is kept. */
  lemma {:induction false} ExtractFallsBackToLastClose(s: string, first: nat)
    requires IndexOf(s, '{') == Some(first) && MatchingClose(s, first).None?
    ensures '}' !in s ==> ExtractObject(s) == s
    ensures forall j :: 0 <= j < |s| && s[j] == '}' && '}' !in s[j + 1..] ==>
              ExtractObject(s) == if j > first then s[first..j + 1] else s
  {
    forall j | 0 <= j < |s| && s[j] == '}' && '}' !in s[j + 1..]
      ensures LastIndexOf(s, '}') == Some(j)
    {
    }
  }

  lemma {:induction false} ScanReachesClose(s: string, start: nat, i: nat, count: int, j: nat)
    requires start < i <= j && ClosesAt(s, start, j)
    requires count == Depth(s[start..i])
    ensures Scan(s, i, count) == Some(j)
    decreases j - i
  {
    DepthStep(s, start, i);
    if i < j {
      ScanReachesClose(s, start, i + 1, Depth(s[start..i + 1]), j);
    }
  }

  /** Conversely, the first return to depth zero is what depth counting
      finds. */
  lemma MatchingCloseFindsClose(s: string, start: nat, j: nat)
    requires ClosesAt(s, start, j) && s[start] == '{'
    ensures MatchingClose(s, start) == Some(j)
  {
    DepthStep(s, start, start);
    assert s[start..start] == [];
    ScanReachesClose(s, start, start + 1, 1, j);
  }

  lemma ClosedSliceIsBalanced(s: string, start: nat, j: nat)
    requires ClosesAt(s, start, j) && s[start] == '{'
    ensures IsBalancedObject(s[start..j + 1])
  {
    var t := s[start..j + 1];
    forall k | 0 < k < |t| ensures Depth(t[..k]) > 0 {
      assert t[..k] == s[start..start + k];
    }
  }

  lemma {:induction false} ExtractCutsAtMatch(s: string, first: nat, end: nat)
    requires IndexOf(s, '{') == Some(first) && MatchingClose(s, first) == Some(end)
    ensures first < end < |s| && ExtractObject(s) == s[first..end + 1]
  {
    assert first < end < |s| by {
      assert s[first] == '{';
      assert MatchingClose(s, first) == Scan(s, first + 1, 1);
      ScanStaysInside(s, first + 1, 1);
    }
  }

  /** When depth counting closes, the cut is exactly the first `{` through
      its matching `}`, and that piece is one balanced object. */
  lemma ExtractCutsBalancedObject(s: string, first: nat, end: nat)
    requires IndexOf(s, '{') == Some(first) && MatchingClose(s, first) == Some(end)
    ensures first < end < |s| && ExtractObject(s) == s[first..end + 1]
    ensures IsBalancedObject(s[first..end + 1])
  {
    ExtractCutsAtMatch(s, first, end);
    MatchingCloseIsFirstReturnToZero(s, first);
    ClosedSliceIsBalanced(s, first, end);
  }

  /** A balanced object surrounded by text with no `{` before it is cut out
      exactly, whatever follows it. */
  lemma ExtractFindsEmbeddedObject(pre: string, obj: string, post: string)
    requires '{' !in pre && IsBalancedObject(obj)
    ensures ExtractObject(pre + obj + post) == obj
  {
    var s := pre + obj + post;
    var p := |pre|;
    var j := p + |obj| - 1;
    assert s[..p] == pre && s[p] == '{';
    assert IndexOf(s, '{') == Some(p);
    assert s[p..j + 1] == obj;
    forall k | p < k <= j ensures Depth(s[p..k]) > 0 {
      assert s[p..k] == obj[..k - p];
    }
    assert ClosesAt(s, p, j);
    MatchingCloseFindsClose(s, p, j);
  }

  // ---------------------------------------------------------------------
  // Stage 4: control characters

  predicate IsControl(c: char) {
    (c as int) < 0x20
  }

  predicate HasNoControl(s: string) {
    forall k :: 0 <= k < |s| ==> !IsControl(s[k])
  }

  /** What one character becomes: newline and tab a space, any other
      character below U+0020 nothing, everything else itself. */
  function FilterControl(c: char): string {
    if IsControl(c) then (if c == '\n' || c == '\t' then " " else "") else [c]
  }

  /** Raw control characters are removed: the result has none, and it is
      never longer than the input. */
  function DropControls(s: string): (r: string)
    ensures HasNoControl(r)
    ensures |r| <= |s|
  {
    if s == [] then [] else FilterControl(s[0]) + DropControls(s[1..])
  }

  lemma {:induction false} DropControlsConcat(a: string, b: string)
    ensures DropControls(a + b) == DropControls(a) + DropControls(b)
  {
    if a == [] {
      assert a + b == b;
    } else {
      assert (a + b)[0] == a[0] && (a + b)[1..] == a[1..] + b;
      DropControlsConcat(a[1..], b);
    }
  }

  /** Text with no control character passes through unchanged. */
  lemma {:induction false} DropControlsKeepsCleanText(s: string)
    requires HasNoControl(s)
    ensures DropControls(s) == s
  {
    if s != [] {
      DropControlsKeepsCleanText(s[1..]);
    }
  }

  /** A line break or tab between two pieces of text becomes one space. */
  lemma BreakBecomesSpace(a: string, c: char, b: string)
    requires c == '\n' || c == '\t'
    ensures DropControls(a + [c] + b) == DropControls(a) + " " + DropControls(b)
  {
    DropControlsConcat(a + [c], b);
    DropControlsConcat(a, [c]);
  }

  // ---------------------------------------------------------------------
  // Stage 5: trailing commas

  /** `str::replace`: every non-overlapping occurrence of `pat`, found left
      to right, is replaced by `rep`. */
  function ReplaceAll(s: string, pat: string, rep: string): string
    requires |pat| > 0
    decreases |s|
  {
    if |s| < |pat| then s
    else if s[..|pat|] == pat then rep + ReplaceAll(s[|pat|..], pat, rep)
    else [s[0]] + ReplaceAll(s[1..], pat, rep)
  }

  /** Every character of a replacement's result comes from the input or
      from `rep`. */
  lemma {:induction false} ReplaceAllKeepsCharacters(s: string, pat: string, rep: string)
    requires |pat| > 0
    ensures forall k :: 0 <= k < |ReplaceAll(s, pat, rep)| ==>
              ReplaceAll(s, pat, rep)[k] in s || ReplaceAll(s, pat, rep)[k] in rep
    decreases |s|
  {
    if |s| >= |pat| {
      var tail := if s[..|pat|] == pat then s[|pat|..] else s[1..];
      ReplaceAllKeepsCharacters(tail, pat, rep);
      forall c | c in tail ensures c in s {
        var i :| 0 <= i < |tail| && tail[i] == c;
        assert s[|s| - |tail| + i] == c;
      }
    }
  }

  /** Text without the pattern is returned unchanged. */
  lemma {:induction false} ReplaceAllAbsent(s: string, pat: string, rep: string)
    requires |pat| > 0 && !IsInfix(pat, s)
    ensures ReplaceAll(s, pat, rep) == s
    decreases |s|
  {
    if |s| >= |pat| {
      assert !OccursAt(pat, s, 0);
      forall i ensures !OccursAt(pat, s[1..], i) {
        if 0 <= i <= |s| - 1 - |pat| {
          assert s[1..][i..i + |pat|] == s[i + 1..i + 1 + |pat|];
          assert !OccursAt(pat, s, i + 1);
        }
      }
      ReplaceAllAbsent(s[1..], pat, rep);
    }
  }

  /** A pattern with a character the text lacks does not occur in it. */
  lemma MissingCharMeansAbsent(pat: string, s: string, k: nat)
    requires k < |pat| && pat[k] !in s
    ensures !IsInfix(pat, s)
  {
    forall i ensures !OccursAt(pat, s, i) {
      if 0 <= i <= |s| - |pat| {
        assert s[i..i + |pat|][k] == s[i + k];
        assert s[i + k] in s;
      }
    }
  }

  /** The four literal replacements, in source order. */
  function RemoveTrailingCommas(s: string): string {
    ReplaceAll(ReplaceAll(ReplaceAll(ReplaceAll(s, ",}", "}"), ",]", "]"), ", }", "}"), ", ]", "]")
  }

  // ---------------------------------------------------------------------
  // The whole pipeline

  /** Stages 1 and 2: trim, strip a fence, trim again. */
  function Unfenced(response: string): string {
    Trim(StripFence(Trim(response)))
  }

  /** Stages 4 and 5 on the extracted text. */
  function Finished(extracted: string): string {
    Trim(RemoveTrailingCommas(Trim(DropControls(extracted))))
  }

  /** `clean_json_response`, stage by stage. */
  function Cleaned(response: string): string {
    Finished(ExtractObject(Unfenced(response)))
  }

  lemma TrimKeepsNoControl(s: string)
    requires HasNoControl(s)
    ensures HasNoControl(Trim(s))
  {
    TrimKeepsCharacters(s);
  }

  lemma ReplaceAllKeepsNoControl(s: string, pat: string, rep: string)
    requires |pat| > 0 && HasNoControl(s) && HasNoControl(rep)
    ensures HasNoControl(ReplaceAll(s, pat, rep))
  {
    ReplaceAllKeepsCharacters(s, pat, rep);
  }

  /** The sanitizer's output never holds a character below U+0020. */
  lemma CleanedHasNoControl(response: string)
    ensures HasNoControl(Cleaned(response))
  {
    var extracted := ExtractObject(Unfenced(response));
    var filtered := Trim(DropControls(extracted));
    TrimKeepsNoControl(DropControls(extracted));
    var a := ReplaceAll(filtered, ",}", "}");
    ReplaceAllKeepsNoControl(filtered, ",}", "}");
    var b := ReplaceAll(a, ",]", "]");
    ReplaceAllKeepsNoControl(a, ",]", "]");
    var c := ReplaceAll(b, ", }", "}");
    ReplaceAllKeepsNoControl(b, ", }", "}");
    var d := ReplaceAll(c, ", ]", "]");
    ReplaceAllKeepsNoControl(c, ", ]", "]");
    TrimKeepsNoControl(d);
  }

  /** Text that is already one clean JSON object: a balanced object with no
      control character and no comma right before a closer. */
  ghost predicate IsCleanObject(s: string) {
    IsBalancedObject(s) && HasNoControl(s) &&
    !IsInfix(",}", s) && !IsInfix(",]", s) && !IsInfix(", }", s) && !IsInfix(", ]", s)
  }

  /** Trimmed text that does not open with a fence passes the first two
      stages unchanged. */
  lemma UnfencedKeepsPlainText(s: string)
    requires IsTrimmed(s) && !(Fence <= s)
    ensures Unfenced(s) == s
  {
  }

  /** A balanced object is its own extraction. */
  lemma BalancedObjectExtractsItself(s: string)
    requires IsBalancedObject(s)
    ensures ExtractObject(s) == s
  {
    ExtractFindsEmbeddedObject([], s, []);
    assert [] + s + [] == s;
  }

  /** The last two stages on trimmed text with no control character
      reduce to the comma removal. */
  lemma FinishedIsCommaRemoval(s: string)
    requires IsTrimmed(s) && HasNoControl(s)
    ensures Finished(s) == Trim(RemoveTrailingCommas(s))
  {
    DropControlsKeepsCleanText(s);
  }

  /** Already-clean JSON text passes through the sanitizer unchanged. */
  lemma CleanObjectIsFixpoint(s: string)
    requires IsCleanObject(s)
    ensures Cleaned(s) == s
  {
    assert !(Fence <= s) by { assert s[0] != Fence[0]; }
    UnfencedKeepsPlainText(s);
    BalancedObjectExtractsItself(s);
    FinishedIsCommaRemoval(s);
    ReplaceAllAbsent(s, ",}", "}");
    ReplaceAllAbsent(s, ",]", "]");
    ReplaceAllAbsent(s, ", }", "}");
    ReplaceAllAbsent(s, ", ]", "]");
  }

  /** Sanitizing twice changes nothing whenever the first pass produced a
      clean object. */
  lemma CleanedIdempotentOnCleanOutput(response: string)
    requires IsCleanObject(Cleaned(response))
    ensures Cleaned(Cleaned(response)) == Cleaned(response)
  {
    CleanObjectIsFixpoint(Cleaned(response));
  }

  /** An object whose braces match at its ends is its own extraction. */
  lemma MatchedObjectExtractsItself(s: string)
    requires |s| >= 2 && s[0] == '{' && MatchingClose(s, 0) == Some(|s| - 1)
    ensures ExtractObject(s) == s
  {
    assert IndexOf(s, '{') == Some(0);
    ExtractCutsBalancedObject(s, 0, |s| - 1);
    assert s[0..|s|] == s;
  }

  /** A fenced object on a line of its own comes out of stages 1 and 2 as
      the object. */
  lemma UnfencedUnwraps(tag: string, obj: string)
    requires '\n' !in tag && obj != [] && IsTrimmed(obj)
    ensures Unfenced(Fence + tag + "\n" + obj + "\n" + Fence) == obj
  {
    var s := Fence + tag + "\n" + obj + "\n" + Fence;
    assert s == Fence + tag + "\n" + (obj + "\n") + Fence;
    assert IsTrimmed(s) by { assert s[0] == '`' && s[|s| - 1] == '`'; }
    StripFenceUnwraps(tag, obj + "\n");
    assert AllWhitespace("\n");
    assert obj + "\n" == [] + obj + "\n";
    TrimRemovesSurroundingWhitespace([], obj, "\n");
  }

  /** Stages 3 to 5 on an object whose braces match at its ends and which
      holds no control character: only the comma removal changes it. */
  lemma MatchedObjectFinishes(s: string)
    requires |s| >= 2 && s[0] == '{' && s[|s| - 1] == '}' && MatchingClose(s, 0) == Some(|s| - 1)
    requires HasNoControl(s)
    ensures Finished(ExtractObject(s)) == Trim(RemoveTrailingCommas(s))
  {
    MatchedObjectExtractsItself(s);
    assert IsTrimmed(s);
    FinishedIsCommaRemoval(s);
  }

  /** Such an object, sent bare, goes straight to the comma removal. */
  lemma CleanedMatchedObject(s: string)
    requires |s| >= 2 && s[0] == '{' && s[|s| - 1] == '}' && MatchingClose(s, 0) == Some(|s| - 1)
    requires HasNoControl(s)
    ensures Cleaned(s) == Trim(RemoveTrailingCommas(s))
  {
    assert IsTrimmed(s);
    assert !(Fence <= s) by { assert s[0] != Fence[0]; }
    UnfencedKeepsPlainText(s);
    MatchedObjectFinishes(s);
  }

  /** Such an object, sent in a fenced block, comes out the same way. */
  lemma CleanedFencedObject(tag: string, obj: string)
    requires '\n' !in tag
    requires |obj| >= 2 && obj[0] == '{' && obj[|obj| - 1] == '}' && MatchingClose(obj, 0) == Some(|obj| - 1)
    requires HasNoControl(obj)
    ensures Cleaned(Fence + tag + "\n" + obj + "\n" + Fence) == Trim(RemoveTrailingCommas(obj))
  {
    assert IsTrimmed(obj);
    UnfencedUnwraps(tag, obj);
    MatchedObjectFinishes(obj);
  }

  /** Text that opens with `{` and closes with `}` is already trimmed. */
  lemma BracedIsTrimmed(s: string)
    requires |s| >= 2 && s[0] == '{' && s[|s| - 1] == '}'
    ensures Trim(s) == s
  {
    assert IsTrimmed(s);
  }

  /** A two-character pattern whose characters never appear as neighbours
      is absent. */
  lemma PairAbsent(pat: string, s: string)
    requires |pat| == 2
    requires forall i :: 0 <= i < |s| - 1 ==> s[i] != pat[0] || s[i + 1] != pat[1]
    ensures !IsInfix(pat, s)
  {
    forall i ensures !OccursAt(pat, s, i) {
      if 0 <= i <= |s| - 2 {
        assert s[i..i + 2][0] == s[i] && s[i..i + 2][1] == s[i + 1];
      }
    }
  }

  /** A three-character pattern whose characters never appear in a row is
      absent. */
  lemma TripleAbsent(pat: string, s: string)
    requires |pat| == 3
    requires forall i :: 0 <= i < |s| - 2 ==> s[i] != pat[0] || s[i + 1] != pat[1] || s[i + 2] != pat[2]
    ensures !IsInfix(pat, s)
  {
    forall i ensures !OccursAt(pat, s, i) {
      if 0 <= i <= |s| - 3 {
        assert s[i..i + 3][0] == s[i] && s[i..i + 3][1] == s[i + 1] && s[i..i + 3][2] == s[i + 2];
      }
    }
  }

  lemma {:induction false} FencedReplyCommas()
    ensures RemoveTrailingCommas("{\"a\":1,}") == "{\"a\":1}"
  {
    var obj := "{\"a\":1,}";
    var fixed := "{\"a\":1}";
    assert ReplaceAll(obj, ",}", "}") == fixed by {
      assert ReplaceAll(obj[6..], ",}", "}") == "}";
      assert ReplaceAll(obj[5..], ",}", "}") == "1}";
      assert ReplaceAll(obj[4..], ",}", "}") == ":1}";
      assert ReplaceAll(obj[3..], ",}", "}") == "\":1}";
      assert ReplaceAll(obj[2..], ",}", "}") == "a\":1}";
      assert ReplaceAll(obj[1..], ",}", "}") == "\"a\":1}";
    }
    MissingCharMeansAbsent(",]", fixed, 0);
    ReplaceAllAbsent(fixed, ",]", "]");
    MissingCharMeansAbsent(", }", fixed, 0);
    ReplaceAllAbsent(fixed, ", }", "}");
    MissingCharMeansAbsent(", ]", fixed, 0);
    ReplaceAllAbsent(fixed, ", ]", "]");
  }

  lemma FencedReplyBraces()
    ensures MatchingClose("{\"a\":1,}", 0) == Some(7)
  {
    var obj := "{\"a\":1,}";
    assert Scan(obj, 0, 0) == Scan(obj, 1, 1) == Scan(obj, 2, 1) == Scan(obj, 3, 1) == Scan(obj, 4, 1)
        == Scan(obj, 5, 1) == Scan(obj, 6, 1) == Scan(obj, 7, 1) == Some(7);
  }

  /** A fenced reply with a trailing comma comes out as the bare object. */
  lemma FencedReplyExample()
    ensures Cleaned("```json\n{\"a\":1,}\n```") == "{\"a\":1}"
  {
    var obj := "{\"a\":1,}";
    FencedReplyBraces();
    assert "```json\n{\"a\":1,}\n```" == Fence + "json" + "\n" + obj + "\n" + Fence;
    CleanedFencedObject("json", obj);
    FencedReplyCommas();
    BracedIsTrimmed("{\"a\":1}");
  }

  lemma DoubleCommaCommas()
    ensures RemoveTrailingCommas("{,,}") == "{,}"
  {
    var s := "{,,}";
    assert ReplaceAll(s, ",}", "}") == "{,}" by {
      assert ReplaceAll(s[2..], ",}", "}") == "}";
      assert ReplaceAll(s[1..], ",}", "}") == ",}";
    }
    var t := "{,}";
    MissingCharMeansAbsent(",]", t, 1);
    ReplaceAllAbsent(t, ",]", "]");
    MissingCharMeansAbsent(", }", t, 1);
    ReplaceAllAbsent(t, ", }", "}");
    MissingCharMeansAbsent(", ]", t, 1);
    ReplaceAllAbsent(t, ", ]", "]");
  }

  lemma DoubleCommaBraces()
    ensures MatchingClose("{,,}", 0) == Some(3)
  {
    var s := "{,,}";
    assert Scan(s, 0, 0) == Scan(s, 1, 1) == Scan(s, 2, 1) == Scan(s, 3, 1) == Some(3);
  }

  lemma DoubleCommaOnce()
    ensures Cleaned("{,,}") == "{,}"
  {
    DoubleCommaBraces();
    CleanedMatchedObject("{,,}");
    DoubleCommaCommas();
    BracedIsTrimmed("{,}");
  }

  lemma SingleCommaCommas()
    ensures RemoveTrailingCommas("{,}") == "{}"
  {
    var s := "{,}";
    assert ReplaceAll(s, ",}", "}") == "{}" by {
      assert ReplaceAll(s[1..], ",}", "}") == "}";
    }
    var t := "{}";
    MissingCharMeansAbsent(",]", t, 0);
    ReplaceAllAbsent(t, ",]", "]");
    MissingCharMeansAbsent(", }", t, 0);
    ReplaceAllAbsent(t, ", }", "}");
    MissingCharMeansAbsent(", ]", t, 0);
    ReplaceAllAbsent(t, ", ]", "]");
  }

  lemma SingleCommaBraces()
    ensures MatchingClose("{,}", 0) == Some(2)
  {
    var s := "{,}";
    assert Scan(s, 0, 0) == Scan(s, 1, 1) == Scan(s, 2, 1) == Some(2);
  }

  lemma SingleCommaRemoved()
    ensures Cleaned("{,}") == "{}"
  {
    SingleCommaBraces();
    CleanedMatchedObject("{,}");
    SingleCommaCommas();
    BracedIsTrimmed("{}");
  }

  /** The trailing-comma pass is a single left-to-right pass, so sanitizing
      is not idempotent in general: a doubled comma loses one comma per
      pass. */
  lemma CleanedNotIdempotent()
    ensures Cleaned(Cleaned("{,,}")) != Cleaned("{,,}")
  {
    DoubleCommaOnce();
    SingleCommaRemoved();
  }

  lemma WideCommaCommas()
    ensures RemoveTrailingCommas("{1,  }") == "{1,  }"
  {
    var s := "{1,  }";
    PairAbsent(",}", s);
    ReplaceAllAbsent(s, ",}", "}");
    MissingCharMeansAbsent(",]", s, 1);
    ReplaceAllAbsent(s, ",]", "]");
    TripleAbsent(", }", s);
    ReplaceAllAbsent(s, ", }", "}");
    MissingCharMeansAbsent(", ]", s, 2);
    ReplaceAllAbsent(s, ", ]", "]");
  }

  lemma WideCommaBraces()
    ensures MatchingClose("{1,  }", 0) == Some(5)
  {
    var s := "{1,  }";
    assert Scan(s, 0, 0) == Scan(s, 1, 1) == Scan(s, 2, 1) == Scan(s, 3, 1) == Scan(s, 4, 1)
        == Scan(s, 5, 1) == Some(5);
  }

  /** Only a comma directly before the closer, or separated from it by one
      space, is removed: with two spaces the comma stays. */
  lemma WideTrailingCommaKept()
    ensures Cleaned("{1,  }") == "{1,  }"
  {
    WideCommaBraces();
    CleanedMatchedObject("{1,  }");
    WideCommaCommas();
    BracedIsTrimmed("{1,  }");
  }

  // ---------------------------------------------------------------------
  // The procedure

  /** The brace-counting scan of `clean_json_response`: from the first `{`,
      count `{` up and `}` down, and stop at the `}` that brings the count
      back to zero. */
  method FindMatchingBrace(cleaned: string, firstBrace: nat) returns (lastBrace: Option<nat>)
    requires firstBrace < |cleaned| && cleaned[firstBrace] == '{'
    ensures lastBrace == MatchingClose(cleaned, firstBrace)
    ensures lastBrace.Some? ==> ClosesAt(cleaned, firstBrace, lastBrace.value)
    ensures lastBrace.None? ==> DepthPositive(cleaned, firstBrace, |cleaned|)
  {
    var braceCount := 0;
    lastBrace := None;
    var i := firstBrace;
    while i < |cleaned|
      invariant firstBrace <= i <= |cleaned|
      invariant lastBrace.None?
      invariant Scan(cleaned, firstBrace, 0) == Scan(cleaned, i, braceCount)
      decreases |cleaned| - i
    {
      var c := cleaned[i];
      if c == '{' {
        braceCount := braceCount + 1;
      } else if c == '}' {
        braceCount := braceCount - 1;
        if braceCount == 0 {
          lastBrace := Some(i);
          break;
        }
      }
      i := i + 1;
    }
    MatchingCloseIsFirstReturnToZero(cleaned, firstBrace);
  }

  /** The object-extraction stage: cut to the matched braces, or to the
      last `}` when it follows the first `{`, or leave the text alone. */
  method ExtractStage(cleaned: string) returns (out: string)
    ensures out == ExtractObject(cleaned)
  {
    out := cleaned;
    match IndexOf(cleaned, '{') {
      case None =>
      case Some(firstBrace) =>
        var lastBrace := FindMatchingBrace(cleaned, firstBrace);
        match lastBrace {
          case Some(endPos) =>
            out := cleaned[firstBrace..endPos + 1];
          case None =>
            match LastIndexOf(cleaned, '}') {
              case Some(fallbackBrace) =>
                if fallbackBrace > firstBrace {
                  out := cleaned[firstBrace..fallbackBrace + 1];
                }
              case None =>
            }
        }
    }
  }

  /** `clean_json_response` as the Rust code runs it: the text is
      reassigned stage by stage. */
  method CleanJsonResponse(response: string) returns (r: string)
    ensures r == Cleaned(response)
    ensures HasNoControl(r)
  {
    var cleaned := Trim(response);
    ghost var trimmed := cleaned;
    if Fence <= cleaned {
      match IndexOf(cleaned, '\n') {
        case Some(startIdx) => cleaned := cleaned[startIdx + 1..];
        case None => cleaned := cleaned[|Fence|..];
      }
      if EndsWith(cleaned, Fence) {
        cleaned := cleaned[..|cleaned| - |Fence|];
      }
    }
    assert cleaned == StripFence(trimmed);
    cleaned := Trim(cleaned);
    assert cleaned == Unfenced(response);
    cleaned := ExtractStage(cleaned);

    var cleanedStr := DropControls(cleaned);
    var result := Trim(cleanedStr);
    result := ReplaceAll(result, ",}", "}");
    result := ReplaceAll(result, ",]", "]");
    result := ReplaceAll(result, ", }", "}");
    result := ReplaceAll(result, ", ]", "]");
    r := Trim(result);
    CleanedHasNoControl(response);
  }
}
