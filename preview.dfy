/** The log previews `generate_feature_design` takes of the model's reply:
    its first 500 bytes on the first attempt, and its first 200 bytes when
    the reply does not parse. Rust measures and slices a `String` in UTF-8
    bytes, and slicing at a byte that falls inside a character panics. */
module Preview {
  import opened Wrappers

  const ResponsePreviewBytes: nat := 500
  const ParseErrorPreviewBytes: nat := 200

  /** The number of bytes UTF-8 encodes `c` in. */
  function Utf8Len(c: char): (r: nat)
    ensures 1 <= r <= 4
  {
    if c as int < 0x80 then 1
    else if c as int < 0x800 then 2
    else if c as int < 0x1_0000 then 3
    else 4
  }

  /** `str::len`: the length of `s` in UTF-8 bytes. */
  function ByteLen(s: string): nat {
    if s == [] then 0 else Utf8Len(s[0]) + ByteLen(s[1..])
  }

  lemma {:induction false} ByteLenAppend(a: string, b: string)
    ensures ByteLen(a + b) == ByteLen(a) + ByteLen(b)
    decreases |a|
  {
    if a == [] {
      assert a + b == b;
    } else {
      ByteLenAppend(a[1..], b);
      assert (a + b)[0] == a[0] && (a + b)[1..] == a[1..] + b;
    }
  }

  /** Every character takes at least one byte. */
  lemma {:induction false} ByteLenAtLeastChars(s: string)
    ensures ByteLen(s) >= |s|
    decreases |s|
  {
    if s != [] {
      ByteLenAtLeastChars(s[1..]);
    }
  }

  /** ASCII text takes one byte per character. */
  lemma {:induction false} ByteLenOfAscii(s: string)
    requires forall i :: 0 <= i < |s| ==> s[i] as int < 0x80
    ensures ByteLen(s) == |s|
    decreases |s|
  {
    if s != [] {
      ByteLenOfAscii(s[1..]);
    }
  }

  /** A longer prefix takes more bytes. */
  lemma PrefixBytesGrow(s: string, i: nat, j: nat)
    requires i < j <= |s|
    ensures ByteLen(s[..i]) + (j - i) <= ByteLen(s[..j])
  {
    assert s[..j] == s[..i] + s[i..j];
    ByteLenAppend(s[..i], s[i..j]);
    ByteLenAtLeastChars(s[i..j]);
  }

  /** Byte offset `n` starts a character of `s`, or is its end: Rust's
      `is_char_boundary`. */
  ghost predicate IsCharBoundary(s: string, n: nat) {
    exists j :: 0 <= j <= |s| && ByteLen(s[..j]) == n
  }

  /** The number of leading characters of `s` that fit in `n` bytes. */
  function CharsWithin(s: string, n: nat): (r: nat)
    ensures r <= |s|
    decreases |s|
  {
    if s == [] || Utf8Len(s[0]) > n then 0
    else 1 + CharsWithin(s[1..], n - Utf8Len(s[0]))
  }

  /** `CharsWithin` counts the longest prefix that fits in `n` bytes. */
  lemma {:induction false} CharsWithinFits(s: string, n: nat)
    ensures var i := CharsWithin(s, n);
            i <= |s| && ByteLen(s[..i]) <= n && (i < |s| ==> ByteLen(s[..i + 1]) > n)
    decreases |s|
  {
    var i := CharsWithin(s, n);
    if s != [] && Utf8Len(s[0]) <= n {
      var t := s[1..];
      CharsWithinFits(t, n - Utf8Len(s[0]));
      assert s[..i] == [s[0]] + t[..i - 1];
      ByteLenAppend([s[0]], t[..i - 1]);
      if i < |s| {
        assert s[..i + 1] == [s[0]] + t[..i];
        ByteLenAppend([s[0]], t[..i]);
      }
    } else if s != [] {
      assert s[..1] == [s[0]];
    }
  }

  /** `&s[..n]`: the first `n` bytes of `s`, or `None` where Rust panics
      because byte `n` falls inside a character (or past the end). */
  function Slice(s: string, n: nat): Option<string> {
    var i := CharsWithin(s, n);
    if ByteLen(s[..i]) == n then Some(s[..i]) else None
  }

  /** The preview as written: `if s.len() > n { &s[..n] } else { s }` (the
      500-byte one then appends `...`). */
  function Head(s: string, n: nat): Option<string> {
    if ByteLen(s) > n then Slice(s, n) else Some(s)
  }

  /** The preview is defined exactly when the text fits in `n` bytes or byte
      `n` is a character boundary. */
  lemma HeadDefinedIffBoundary(s: string, n: nat)
    ensures Head(s, n).Some? <==> ByteLen(s) <= n || IsCharBoundary(s, n)
  {
    var i := CharsWithin(s, n);
    CharsWithinFits(s, n);
    if ByteLen(s) > n && IsCharBoundary(s, n) {
      var j :| 0 <= j <= |s| && ByteLen(s[..j]) == n;
      if i < j {
        if i + 1 < j {
          PrefixBytesGrow(s, i + 1, j);
        }
      } else if j < i {
        PrefixBytesGrow(s, j, i);
      }
    }
  }

  /** A character whose bytes straddle byte `n` leaves the preview
      undefined. */
  lemma SplitCharHasNoHead(p: string, c: char, n: nat)
    requires ByteLen(p) < n < ByteLen(p) + Utf8Len(c)
    ensures Head(p + [c], n) == None
  {
    var s := p + [c];
    ByteLenAppend(p, [c]);
    assert ByteLen([c]) == Utf8Len(c);
    HeadDefinedIffBoundary(s, n);
    forall j | 0 <= j <= |s|
      ensures ByteLen(s[..j]) != n
    {
      assert s[..|p|] == p;
      if j < |p| {
        PrefixBytesGrow(s, j, |p|);
      } else if j == |p| {
      } else {
        assert s[..j] == s;
      }
    }
  }

  /** 499 ASCII characters followed by an em dash (three bytes in UTF-8) are
      502 bytes long, and byte 500 falls inside the dash: the first
      attempt's preview panics. */
  lemma EmDashAtByte500Panics()
    ensures var s := seq(499, _ => 'a') + ['\U{2014}'];
            ByteLen(s) == 502 && Head(s, ResponsePreviewBytes) == None
  {
    var p := seq(499, _ => 'a');
    ByteLenOfAscii(p);
    ByteLenAppend(p, ['\U{2014}']);
    assert ByteLen(['\U{2014}']) == 3;
    SplitCharHasNoHead(p, '\U{2014}', ResponsePreviewBytes);
  }

  /** The preview cut at the last character boundary at or before byte `n`
      (`str::floor_char_boundary`). */
  function HeadFixed(s: string, n: nat): string {
    if ByteLen(s) > n then s[..CharsWithin(s, n)] else s
  }

  /** The corrected preview is the longest prefix of `s` that fits in `n`
      bytes. */
  lemma HeadFixedFits(s: string, n: nat)
    ensures var r := HeadFixed(s, n);
            r <= s && ByteLen(r) <= n && (r == s || ByteLen(s[..|r| + 1]) > n)
  {
    assert s[..|s|] == s;
    CharsWithinFits(s, n);
  }

  /** Wherever the preview as written is defined, the corrected one is the
      same text. */
  lemma HeadFixedAgrees(s: string, n: nat)
    ensures Head(s, n).Some? ==> Head(s, n) == Some(HeadFixed(s, n))
  {
  }
}
