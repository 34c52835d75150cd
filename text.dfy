/**
  Strings as the receiver clients see them once bytes are decoded: the Python
  built-ins they rely on (`str.isspace`, `str.strip`, `str.split`, `str.upper`,
  substring tests) and the scanning helpers the regular expressions are
  rebuilt from.
 */
module Text {

  datatype Option<+T> = None | Some(value: T)

  /** A value, or the message of the exception the source raises instead. */
  datatype Result<+T> = Ok(value: T) | Err(message: string)

  /** Python's `str.isspace`, which is also what `\s` matches in a `str` pattern. */
  predicate IsSpace(c: char) {
    var n := c as int;
    n == 0x20 || 0x09 <= n <= 0x0D || 0x1C <= n <= 0x1F || n == 0x85 || n == 0xA0
    || n == 0x1680 || 0x2000 <= n <= 0x200A || n == 0x2028 || n == 0x2029
    || n == 0x202F || n == 0x205F || n == 0x3000
  }

  predicate NotSpace(c: char) { !IsSpace(c) }

  /** The ASCII part of `\d`. */
  predicate IsDigit(c: char) { '0' <= c <= '9' }

  /** Length of the longest prefix of `s` whose characters all satisfy `p`. */
  function Span(s: string, p: char -> bool): (n: nat)
    ensures n <= |s|
    ensures forall i :: 0 <= i < n ==> p(s[i])
    ensures n == |s| || !p(s[n])
  {
    if s != [] && p(s[0]) then 1 + Span(s[1..], p) else 0
  }

  /** Span of a concatenation whose first part is wholly accepted stops in the second part. */
  lemma {:induction false} SpanConcat(a: string, b: string, p: char -> bool)
    requires forall i :: 0 <= i < |a| ==> p(a[i])
    ensures Span(a + b, p) == |a| + Span(b, p)
  {
    if a != [] {
      assert (a + b)[1..] == a[1..] + b;
      SpanConcat(a[1..], b, p);
    } else {
      assert a + b == b;
    }
  }

  /** Drops the leading characters that satisfy `p` (Python's `lstrip(chars)`). */
  function TrimStart(s: string, p: char -> bool): (r: string)
    ensures |r| <= |s| && r == s[|s| - |r|..]
    ensures r == [] || !p(r[0])
    ensures forall i :: 0 <= i < |s| - |r| ==> p(s[i])
  {
    s[Span(s, p)..]
  }

  /** Drops the trailing characters that satisfy `p` (Python's `rstrip(chars)`). */
  function TrimEnd(s: string, p: char -> bool): (r: string)
    ensures |r| <= |s| && r == s[..|r|]
    ensures r == [] || !p(r[|r| - 1])
    ensures forall i :: |r| <= i < |s| ==> p(s[i])
  {
    if s != [] && p(s[|s| - 1]) then TrimEnd(s[..|s| - 1], p) else s
  }

  /** Python's `str.strip()`: the text between the first and last non-space characters. */
  function Strip(s: string): (r: string)
    ensures r == [] || (NotSpace(r[0]) && NotSpace(r[|r| - 1]))
    ensures Span(s, IsSpace) + |r| <= |s|
    ensures r == s[Span(s, IsSpace)..Span(s, IsSpace) + |r|]
  {
    TrimEnd(TrimStart(s, IsSpace), IsSpace)
  }

  /** `strip()` gives the empty text exactly when the text is all whitespace. */
  lemma StripEmpty(s: string)
    ensures Strip(s) == [] <==> forall i :: 0 <= i < |s| ==> IsSpace(s[i])
  {
    StripDrops(s);
    if Strip(s) != [] {
      var k := Span(s, IsSpace);
      assert s[k] == Strip(s)[0] && NotSpace(s[k]);
    }
  }

  /** What `strip()` drops on either side of its window is whitespace. */
  lemma StripDrops(s: string)
    ensures forall i :: 0 <= i < Span(s, IsSpace) ==> IsSpace(s[i])
    ensures forall i :: Span(s, IsSpace) + |Strip(s)| <= i < |s| ==> IsSpace(s[i])
  {
    var t := TrimStart(s, IsSpace);
    assert forall i :: Span(s, IsSpace) + |Strip(s)| <= i < |s| ==> s[i] == t[i - Span(s, IsSpace)];
  }

  /** A core that begins and ends with a non-space character, padded with whitespace, strips to the core. */
  lemma StripAround(pre: string, core: string, post: string)
    requires forall i :: 0 <= i < |pre| ==> IsSpace(pre[i])
    requires forall i :: 0 <= i < |post| ==> IsSpace(post[i])
    requires core != [] && NotSpace(core[0]) && NotSpace(core[|core| - 1])
    ensures Strip(pre + core + post) == core
  {
    var s := pre + core + post;
    var n := |pre|;
    assert Span(s, IsSpace) == n by {
      assert s == pre + (core + post);
      SpanConcat(pre, core + post, IsSpace);
      assert (core + post)[0] == core[0];
    }
    var r := Strip(s);
    StripDrops(s);
    assert s[n + |core| - 1] == core[|core| - 1];
    assert s[n..n + |core|] == core;
  }

  /** Text with no space at either end, as `strip()` leaves it. */
  predicate Trimmed(s: string) {
    s == [] || (NotSpace(s[0]) && NotSpace(s[|s| - 1]))
  }

  /** Text that already begins and ends with a non-space character is its own strip. */
  lemma StripKeeps(s: string)
    requires s != [] && NotSpace(s[0]) && NotSpace(s[|s| - 1])
    ensures Strip(s) == s
  {
    assert Span(s, IsSpace) == 0;
  }

  /** Membership in a character set, as a test `TrimStart` and `TrimEnd` can take. */
  function Member(chars: set<char>): char -> bool {
    c => c in chars
  }

  /** Python's `str.strip(chars)` for an explicit character set. */
  function StripChars(s: string, chars: set<char>): (r: string)
    ensures r == [] || (r[0] !in chars && r[|r| - 1] !in chars)
  {
    TrimEnd(TrimStart(s, Member(chars)), Member(chars))
  }

  /** Trimming the end stops at the last character that fails the test. */
  lemma {:induction false} TrimEndConcat(a: string, b: string, p: char -> bool)
    requires a == [] || !p(a[|a| - 1])
    requires forall i :: 0 <= i < |b| ==> p(b[i])
    ensures TrimEnd(a + b, p) == a
  {
    if b == [] {
      assert a + b == a;
    } else {
      var n := |b| - 1;
      assert (a + b)[|a + b| - 1] == b[n];
      assert (a + b)[..|a + b| - 1] == a + b[..n];
      TrimEndConcat(a, b[..n], p);
    }
  }

  /**
    `strip(chars)` of a text whose padding is made of those characters, around
    a core that starts and ends outside them, is that core.
   */
  lemma StripCharsAround(pre: string, core: string, post: string, chars: set<char>)
    requires forall i :: 0 <= i < |pre| ==> pre[i] in chars
    requires forall i :: 0 <= i < |post| ==> post[i] in chars
    requires core != [] && core[0] !in chars && core[|core| - 1] !in chars
    ensures StripChars(pre + core + post, chars) == core
  {
    var m := Member(chars);
    var s := pre + core + post;
    assert s == pre + (core + post);
    SpanConcat(pre, core + post, m);
    assert Span(core + post, m) == 0 by {
      assert (core + post)[0] == core[0];
    }
    assert TrimStart(s, m) == core + post;
    TrimEndConcat(core, post, m);
  }

  /** `p` occurs at the start of `s` (Python's `s.startswith(p)`). */
  predicate StartsWith(s: string, p: string) {
    |p| <= |s| && s[..|p|] == p
  }

  /** Python's `s.endswith(p)`. */
  predicate EndsWith(s: string, p: string) {
    |p| <= |s| && s[|s| - |p|..] == p
  }

  /** Python's `sub in s`: some window of `s` equals `sub`. */
  predicate Contains(s: string, sub: string) {
    exists k :: 0 <= k <= |s| && StartsWith(s[k..], sub)
  }

  /** A window of a text without `sub` is itself without `sub`. */
  lemma WindowAvoids(s: string, i: nat, j: nat, sub: string)
    requires i <= j <= |s| && !Contains(s, sub)
    ensures !Contains(s[i..j], sub)
  {
    forall k | 0 <= k <= j - i
      ensures StartsWith(s[i..j][k..], sub) ==> StartsWith(s[i + k..], sub)
    {
      if |sub| <= j - i - k {
        assert s[i..j][k..][..|sub|] == s[i + k..][..|sub|];
      }
    }
  }

  /**
    Two texts without `sub` stay without it when joined, provided one of the
    two characters at the seam does not occur in `sub`.
   */
  lemma AvoidsConcat(a: string, b: string, sub: string)
    requires sub != [] && !Contains(a, sub) && !Contains(b, sub)
    requires a == [] || b == [] || a[|a| - 1] !in sub || b[0] !in sub
    ensures !Contains(a + b, sub)
  {
    var ab := a + b;
    forall k | 0 <= k <= |ab| ensures !StartsWith(ab[k..], sub) {
      if k >= |a| {
        assert ab[k..] == b[k - |a|..];
      } else if k + |sub| <= |a| {
        assert ab[k..][..|sub|] == a[k..][..|sub|];
      } else if k + |sub| <= |ab| {
        if a[|a| - 1] !in sub {
          assert ab[k..][|a| - 1 - k] == a[|a| - 1];
          assert sub[|a| - 1 - k] in sub;
        } else {
          assert ab[k..][|a| - k] == b[0];
          assert sub[|a| - k] in sub;
        }
      }
    }
  }

  /** A text made of characters that never occur in `sub` does not contain it. */
  lemma AvoidsForeign(s: string, sub: string)
    requires sub != [] && forall i :: 0 <= i < |s| ==> s[i] !in sub
    ensures !Contains(s, sub)
  {
    forall k | 0 <= k <= |s| ensures !StartsWith(s[k..], sub) {
      if k < |s| {
        assert s[k..][0] == s[k];
        assert sub[0] in sub;
      }
    }
  }

  /** Index of the first occurrence of a non-empty `sep` in `s`. */
  function Find(s: string, sep: string): (r: Option<nat>)
    requires sep != []
    ensures r.Some? ==> r.value <= |s| && StartsWith(s[r.value..], sep)
    ensures r.Some? ==> forall k :: 0 <= k < r.value ==> !StartsWith(s[k..], sep)
    ensures r.None? ==> !Contains(s, sep)
    decreases |s|
  {
    if StartsWith(s, sep) then Some(0)
    else if s == [] then None
    else match Find(s[1..], sep)
      case None =>
        assert forall k :: 1 <= k <= |s| ==> s[k..] == s[1..][k - 1..];
        None
      case Some(i) =>
        assert forall k :: 1 <= k <= |s| ==> s[k..] == s[1..][k - 1..];
        Some(i + 1)
  }

  /** Find returns the first occurrence. */
  lemma FindFirst(s: string, sep: string, i: nat)
    requires sep != [] && i <= |s| && StartsWith(s[i..], sep)
    requires forall k :: 0 <= k < i ==> !StartsWith(s[k..], sep)
    ensures Find(s, sep) == Some(i)
  {
  }

  /** Python's `s.split(sep)` for a non-empty separator. */
  function Split(s: string, sep: string): (parts: seq<string>)
    requires sep != []
    ensures |parts| >= 1
    ensures forall p :: p in parts ==> !Contains(p, sep)
    decreases |s|
  {
    match Find(s, sep)
    case None => [s]
    case Some(i) =>
      assert !Contains(s[..i], sep) by {
        forall k | 0 <= k <= i ensures !StartsWith(s[..i][k..], sep) {
          if |sep| <= i - k {
            var w := s[..i][k..];
            assert forall m :: 0 <= m < |sep| ==> w[m] == s[k..][m];
            assert w[..|sep|] == s[k..][..|sep|];
          }
        }
      }
      [s[..i]] + Split(s[i + |sep|..], sep)
  }

  /** Python's `sep.join(parts)`. */
  function Join(parts: seq<string>, sep: string): string {
    if parts == [] then []
    else if |parts| == 1 then parts[0]
    else parts[0] + sep + Join(parts[1..], sep)
  }

  /** A joined text begins with its first part and ends with its last one. */
  lemma {:induction false} JoinEnds(parts: seq<string>, sep: string)
    requires parts != []
    ensures StartsWith(Join(parts, sep), parts[0])
    ensures EndsWith(Join(parts, sep), parts[|parts| - 1])
  {
    if |parts| > 1 {
      var rest := Join(parts[1..], sep);
      JoinEnds(parts[1..], sep);
      var s := parts[0] + sep + rest;
      assert s[..|parts[0]|] == parts[0];
      assert s == (parts[0] + sep) + rest;
      assert s[|s| - |rest|..] == rest;
    }
  }

  /** Splitting and joining back with the same separator gives the text back. */
  lemma {:induction false} JoinSplit(s: string, sep: string)
    requires sep != []
    ensures Join(Split(s, sep), sep) == s
    decreases |s|
  {
    match Find(s, sep)
    case None =>
    case Some(i) =>
      var rest := s[i + |sep|..];
      var tail := Split(rest, sep);
      JoinSplit(rest, sep);
      assert Split(s, sep) == [s[..i]] + tail;
      assert ([s[..i]] + tail)[1..] == tail;
      SeparatorAt(s, sep, i);
  }

  /** A text with the separator at i is the part before it, the separator and the part after it. */
  lemma SeparatorAt(s: string, sep: string, i: nat)
    requires i <= |s| && StartsWith(s[i..], sep)
    ensures s == s[..i] + sep + s[i + |sep|..]
  {
    assert s[i..][..|sep|] == s[i..i + |sep|];
  }

  /** A non-empty run of non-space characters. */
  predicate IsWord(w: string) {
    w != [] && forall i :: 0 <= i < |w| ==> NotSpace(w[i])
  }

  /** Python's `s.split()`: the maximal runs of non-space characters, in order. */
  function Words(s: string): (ws: seq<string>)
    ensures forall w :: w in ws ==> IsWord(w)
    decreases |s|
  {
    var t := TrimStart(s, IsSpace);
    if t == [] then []
    else
      var n := Span(t, NotSpace);
      assert IsWord(t[..n]);
      [t[..n]] + Words(t[n..])
  }

  /** A word with nothing but spaces around it is the single word of its text. */
  lemma WordsOfWord(w: string, pad: string)
    requires IsWord(w)
    requires forall i :: 0 <= i < |pad| ==> IsSpace(pad[i])
    ensures Words(w + pad) == [w]
  {
    SpanConcat(w, pad, NotSpace);
    assert (w + pad)[..|w|] == w;
    assert (w + pad)[|w|..] == pad;
    assert TrimStart(pad, IsSpace) == [];
  }

  /** A leading word and a space-separated remainder split into that word and the remainder's words. */
  lemma WordsCons(w: string, rest: string)
    requires IsWord(w)
    ensures Words(w + " " + rest) == [w] + Words(rest)
  {
    assert w + " " + rest == w + (" " + rest);
    WordsLead(w, " " + rest);
    WordsSkipSpace(rest);
  }

  lemma WordsLead(w: string, tail: string)
    requires IsWord(w) && tail != [] && IsSpace(tail[0])
    ensures Words(w + tail) == [w] + Words(tail)
  {
    var s := w + tail;
    SpanConcat(w, tail, NotSpace);
    assert s[..|w|] == w && s[|w|..] == tail;
    assert s[0] == w[0];
    assert TrimStart(s, IsSpace) == s;
  }

  lemma WordsSkipSpace(rest: string)
    ensures Words(" " + rest) == Words(rest)
  {
    assert (" " + rest)[1..] == rest;
    assert TrimStart(" " + rest, IsSpace) == TrimStart(rest, IsSpace);
  }

  /** Words written with single spaces between them are split back into those words. */
  lemma {:induction false} WordsOfJoin(ws: seq<string>)
    requires forall i :: 0 <= i < |ws| ==> IsWord(ws[i])
    ensures Words(Join(ws, " ")) == ws
  {
    if |ws| == 1 {
      WordsOfWord(ws[0], []);
      assert ws[0] + [] == ws[0];
    } else if |ws| > 1 {
      var tail := Join(ws[1..], " ");
      assert Join(ws, " ") == ws[0] + " " + tail;
      WordsOfJoin(ws[1..]);
      WordsCons(ws[0], tail);
      assert ws == [ws[0]] + ws[1..];
    }
  }

  /** Python's `str.upper()` on one character, for ASCII and for the letters whose upper case is plain ASCII. */
  function UpperChar(c: char): (r: string)
    ensures 1 <= |r| <= 3
    ensures 'a' <= c <= 'z' ==> |r| == 1 && 'A' <= r[0] <= 'Z' && r[0] as int - 'A' as int == c as int - 'a' as int
    ensures !('a' <= c <= 'z') && c as int < 0x80 ==> r == [c]
    ensures r == [c] || forall i :: 0 <= i < |r| ==> 'A' <= r[i] <= 'Z'
  {
    if 'a' <= c <= 'z' then [(c as int - 32) as char]
    else if c == '\U{0131}' then "I"      // dotless i
    else if c == '\U{017F}' then "S"      // long s
    else if c == '\U{00DF}' then "SS"     // sharp s
    else if c == '\U{FB00}' then "FF"
    else if c == '\U{FB01}' then "FI"
    else if c == '\U{FB02}' then "FL"
    else if c == '\U{FB03}' then "FFI"
    else if c == '\U{FB04}' then "FFL"
    else if c == '\U{FB05}' || c == '\U{FB06}' then "ST"
    else [c]
  }

  /**
    Python's `str.upper()`. On ASCII text it maps `a`..`z` to `A`..`Z`, one
    character for one, and keeps every other character.
   */
  function Upper(s: string): (r: string)
    ensures |r| >= |s|
    ensures IsAscii(s) ==> |r| == |s| && forall i :: 0 <= i < |s| ==>
      (if 'a' <= s[i] <= 'z' then r[i] as int == s[i] as int - 32 else r[i] == s[i])
  {
    if s == [] then [] else UpperChar(s[0]) + Upper(s[1..])
  }

  predicate IsAscii(s: string) {
    forall i :: 0 <= i < |s| ==> s[i] as int < 0x80
  }

  /**
    `s` spells the key `k` with any of its letters written in lower case, as a
    user may type it on the command line.
   */
  predicate CaseVariant(s: string, k: string) {
    |s| == |k| && forall i :: 0 <= i < |s| ==>
      s[i] == k[i] || ('A' <= k[i] <= 'Z' && s[i] as int == k[i] as int + 32)
  }

  /** Upper-casing any case variant of a registry-style key gives the key. */
  lemma UpperOfCaseVariant(s: string, k: string)
    requires forall i :: 0 <= i < |k| ==> IsKeyChar(k[i])
    requires CaseVariant(s, k)
    ensures Upper(s) == k
  {
    assert IsAscii(s);
  }

  /** Text made only of upper-case letters, digits and `_` (the registry's key alphabet). */
  predicate IsKeyChar(c: char) {
    'A' <= c <= 'Z' || '0' <= c <= '9' || c == '_'
  }

  /** A non-empty run of `[A-Z0-9_]`, the shape of every registry key. */
  predicate IsKey(k: string) {
    k != [] && forall c :: c in k ==> IsKeyChar(c)
  }

  /** A key, character by character: it is a word and upper-casing keeps it. */
  lemma KeyAt(k: string)
    requires IsKey(k)
    ensures forall i :: 0 <= i < |k| ==> IsKeyChar(k[i])
    ensures IsWord(k) && Upper(k) == k
  {
    assert forall i :: 0 <= i < |k| ==> k[i] in k;
    UpperKeepsKey(k);
  }

  /** Upper-casing leaves a registry-style key unchanged. */
  lemma {:induction false} UpperKeepsKey(s: string)
    requires forall i :: 0 <= i < |s| ==> IsKeyChar(s[i])
    ensures Upper(s) == s
  {
    if s != [] {
      UpperKeepsKey(s[1..]);
      assert s == [s[0]] + s[1..];
    }
  }

  /** The decimal digit of a number in 0..9. */
  function DigitChar(d: int): (c: char)
    requires 0 <= d <= 9
    ensures IsDigit(c) && c as int - '0' as int == d
  {
    ('0' as int + d) as char
  }
}
