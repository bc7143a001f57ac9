/** The pieces of Rust's standard library whose behaviour the client relies
    on: `str::trim`, `str::starts_with(char)`, `str::split_once(char)` and the
    `as u32` cast of an `i64`. */
module RustStd {
  import opened Results

  /** `char::is_whitespace`: the characters with the Unicode White_Space
      property. */
  predicate IsWhitespace(c: char) {
    || ('\t' <= c <= '\r')
    || c == ' '
    || c == '\U{85}'
    || c == '\U{A0}'
    || c == '\U{1680}'
    || ('\U{2000}' <= c <= '\U{200A}')
    || c == '\U{2028}'
    || c == '\U{2029}'
    || c == '\U{202F}'
    || c == '\U{205F}'
    || c == '\U{3000}'
  }

  predicate AllWhitespace(s: string) {
    forall k :: 0 <= k < |s| ==> IsWhitespace(s[k])
  }

  /** The length of the longest all-whitespace prefix of `s`. */
  function LeadingWhitespace(s: string): (n: nat)
    ensures n <= |s| && AllWhitespace(s[..n])
    ensures n < |s| ==> !IsWhitespace(s[n])
  {
    if s == [] || !IsWhitespace(s[0]) then 0
    else
      var n := 1 + LeadingWhitespace(s[1..]);
      assert forall k :: 1 <= k < n ==> s[k] == s[1..][k - 1];
      n
  }

  /** The length of the longest all-whitespace suffix of `s`. */
  function TrailingWhitespace(s: string): (n: nat)
    ensures n <= |s| && AllWhitespace(s[|s| - n..])
    ensures n < |s| ==> !IsWhitespace(s[|s| - n - 1])
  {
    if s == [] || !IsWhitespace(s[|s| - 1]) then 0
    else
      var init := s[..|s| - 1];
      var n := 1 + TrailingWhitespace(init);
      assert forall k :: |s| - n <= k < |s| - 1 ==> s[k] == init[k];
      n
  }

  /** `str::trim`: `s` without its leading and trailing whitespace. */
  function Trim(s: string): (r: string)
    ensures exists i :: TrimmedAt(s, r, i)
    ensures r == [] || (!IsWhitespace(r[0]) && !IsWhitespace(r[|r| - 1]))
    ensures r == [] <==> AllWhitespace(s)
  {
    var i := LeadingWhitespace(s);
    var rest := s[i..];
    var j := |rest| - TrailingWhitespace(rest);
    TrimSlice(s, i, j);
    TrimEmpty(s, i, j);
    rest[..j]
  }

  /** The slice `Trim` keeps sits between whitespace and has non-whitespace
      ends. */
  lemma TrimSlice(s: string, i: nat, j: int)
    requires i == LeadingWhitespace(s)
    requires j == |s[i..]| - TrailingWhitespace(s[i..])
    ensures TrimmedAt(s, s[i..][..j], i)
    ensures s[i..][..j] == [] || (!IsWhitespace(s[i..][..j][0]) && !IsWhitespace(s[i..][..j][j - 1]))
  {
    var rest := s[i..];
    assert s[i + j..] == rest[j..];
    assert s[i..i + j] == rest[..j];
  }

  /** `Trim` keeps nothing only when every character is whitespace. */
  lemma TrimEmpty(s: string, i: nat, j: int)
    requires i == LeadingWhitespace(s)
    requires j == |s[i..]| - TrailingWhitespace(s[i..])
    ensures j == 0 <==> AllWhitespace(s)
  {
    var rest := s[i..];
    if j == 0 {
      assert AllWhitespace(rest[0..]);
      assert i == |s|;
      assert s == s[..i];
    }
  }

  /** `r` is `s[i..i + |r|]` and everything of `s` around it is whitespace. */
  predicate TrimmedAt(s: string, r: string, i: int) {
    0 <= i <= i + |r| <= |s| && s[i..i + |r|] == r
    && AllWhitespace(s[..i]) && AllWhitespace(s[i + |r|..])
  }

  /** Trimming twice trims nothing more. */
  lemma TrimIdempotent(s: string)
    ensures Trim(Trim(s)) == Trim(s)
  {
    var r := Trim(s);
    var t := Trim(r);
    var i :| TrimmedAt(r, t, i);
    if r != [] {
      assert r[..i] == [] && r[i + |t|..] == [];
      assert t == r[0..|r|];
    }
  }

  /** Trimming adds no character: one absent from `s` is absent from its
      trimmed form. */
  lemma TrimKeepsOut(s: string, c: char)
    requires c !in s
    ensures c !in Trim(s)
  {
    var i :| TrimmedAt(s, Trim(s), i);
    assert forall k :: 0 <= k < |Trim(s)| ==> Trim(s)[k] == s[i + k];
  }

  /** Trimming removes exactly a whitespace prefix and a whitespace suffix
      around a core that starts and ends with non-whitespace. */
  lemma TrimOf(pre: string, core: string, post: string)
    requires AllWhitespace(pre) && AllWhitespace(post)
    requires core != [] && !IsWhitespace(core[0]) && !IsWhitespace(core[|core| - 1])
    ensures Trim(pre + core + post) == core
  {
    var s := pre + core + post;
    assert s == pre + (core + post);
    LeadingWhitespaceOf(pre, core + post);
    assert s[|pre|..] == core + post;
    TrailingWhitespaceOf(core, post);
  }

  lemma {:induction false} LeadingWhitespaceOf(pre: string, t: string)
    requires AllWhitespace(pre)
    requires t == [] || !IsWhitespace(t[0])
    ensures LeadingWhitespace(pre + t) == |pre|
  {
    if pre != [] {
      assert (pre + t)[1..] == pre[1..] + t;
      LeadingWhitespaceOf(pre[1..], t);
    } else {
      assert pre + t == t;
    }
  }

  lemma {:induction false} TrailingWhitespaceOf(t: string, post: string)
    requires AllWhitespace(post)
    requires t == [] || !IsWhitespace(t[|t| - 1])
    ensures TrailingWhitespace(t + post) == |post|
  {
    if post != [] {
      var s := t + post;
      assert s[..|s| - 1] == t + post[..|post| - 1];
      TrailingWhitespaceOf(t, post[..|post| - 1]);
    } else {
      assert t + post == t;
    }
  }

  /** `str::starts_with(c)` for a single character. */
  predicate StartsWith(s: string, c: char) {
    |s| > 0 && s[0] == c
  }

  /** `str::split_once(sep)`: the text before and after the FIRST `sep`, or
      nothing when `sep` does not occur. */
  function SplitOnce(s: string, sep: char): (r: Option<(string, string)>)
    ensures r.None? <==> sep !in s
    ensures r.Some? ==> r.value.0 + [sep] + r.value.1 == s && sep !in r.value.0
  {
    if s == [] then None
    else if s[0] == sep then Some(([], s[1..]))
    else match SplitOnce(s[1..], sep)
      case None => None
      case Some((before, after)) => Some(([s[0]] + before, after))
  }

  /** A string that splits as `a + [sep] + b` with no `sep` in `a` splits back
      into exactly `a` and `b`: the split point is the first separator. */
  lemma SplitOnceAt(a: string, sep: char, b: string)
    requires sep !in a
    ensures SplitOnce(a + [sep] + b, sep) == Some((a, b))
  {
    var r := SplitOnce(a + [sep] + b, sep);
    FirstSeparatorUnique(r.value.0, r.value.1, a, b, sep);
  }

  lemma {:induction false} FirstSeparatorUnique(x1: string, y1: string, x2: string, y2: string, sep: char)
    requires x1 + [sep] + y1 == x2 + [sep] + y2
    requires sep !in x1 && sep !in x2
    ensures x1 == x2 && y1 == y2
  {
    var s := x1 + [sep] + y1;
    if x1 != [] && x2 != [] {
      assert s[0] == x1[0] == x2[0];
      assert x1[1..] + [sep] + y1 == s[1..] == x2[1..] + [sep] + y2;
      FirstSeparatorUnique(x1[1..], y1, x2[1..], y2, sep);
    } else {
      assert s[0] == sep;
      assert x1 == [] && x2 == [];
      assert y1 == s[1..] == y2;
    }
  }

  const U32_MODULUS: int := 0x1_0000_0000

  /** Rust's `u32`. */
  type U32 = x: int | 0 <= x < U32_MODULUS

  /** `x as u32` for an `i64` `x`: two's-complement truncation to the low 32
      bits, which for every integer is the residue modulo 2^32. */
  function WrapU32(x: int): (r: U32)
    ensures (x - r) % U32_MODULUS == 0
    ensures 0 <= x < U32_MODULUS ==> r == x
  {
    x % U32_MODULUS
  }
}
