/** The pieces of Go's `strings` and `unicode` packages that the service relies
    on, stated over `seq<char>` (Go strings are taken to be valid UTF-8, one
    `char` per rune). */
module GoStrings {

  /** `unicode.IsSpace`: the Latin-1 white space characters and the other
      characters with the Unicode White_Space property. */
  predicate IsSpace(c: char) {
    c == ' ' || c == '\t' || c == '\n' || c == '\U{000B}' || c == '\U{000C}' || c == '\r' ||
    c == '\U{0085}' || c == '\U{00A0}' || c == '\U{1680}' ||
    ('\U{2000}' <= c <= '\U{200A}') ||
    c == '\U{2028}' || c == '\U{2029}' || c == '\U{202F}' || c == '\U{205F}' || c == '\U{3000}'
  }

  predicate NoSpace(s: string) {
    forall i :: 0 <= i < |s| ==> !IsSpace(s[i])
  }

  predicate AllSpace(s: string) {
    forall i :: 0 <= i < |s| ==> IsSpace(s[i])
  }

  /** `strings.HasPrefix`. */
  predicate HasPrefix(s: string, prefix: string) {
    |prefix| <= |s| && s[..|prefix|] == prefix
  }

  /** A string has a prefix exactly when it is that prefix followed by the
      rest of the string. */
  lemma HasPrefixConcat(s: string, prefix: string)
    ensures HasPrefix(s, prefix) <==> |prefix| <= |s| && s == prefix + s[|prefix|..]
    ensures forall t :: HasPrefix(prefix + t, prefix)
  {
    forall t ensures HasPrefix(prefix + t, prefix) {
      assert (prefix + t)[..|prefix|] == prefix;
    }
    if |prefix| <= |s| {
      assert s == s[..|prefix|] + s[|prefix|..];
    }
  }

  /** `strings.TrimRight(s, cutset)` for a one-character cut set: every
      trailing `c` is removed. */
  function TrimRight(s: string, c: char): (r: string)
    decreases |s|
  {
    if s != [] && s[|s| - 1] == c then TrimRight(s[..|s| - 1], c) else s
  }

  /** What `TrimRight` promises: it keeps a prefix, removes only `c`s, and
      leaves no trailing `c`. */
  lemma {:induction false} TrimRightSpec(s: string, c: char)
    ensures |TrimRight(s, c)| <= |s|
    ensures TrimRight(s, c) == s[..|TrimRight(s, c)|]
    ensures forall i :: |TrimRight(s, c)| <= i < |s| ==> s[i] == c
    ensures TrimRight(s, c) == [] || TrimRight(s, c)[|TrimRight(s, c)| - 1] != c
  {
    if s != [] && s[|s| - 1] == c {
      TrimRightSpec(s[..|s| - 1], c);
    }
  }

  // Number of leading white space characters.
  function LeadingSpaces(s: string): (n: nat)
    ensures n <= |s|
    ensures forall i :: 0 <= i < n ==> IsSpace(s[i])
    ensures n < |s| ==> !IsSpace(s[n])
  {
    if s != [] && IsSpace(s[0]) then 1 + LeadingSpaces(s[1..]) else 0
  }

  // Number of trailing white space characters.
  function TrailingSpaces(s: string): (n: nat)
    ensures n <= |s|
    ensures forall i :: |s| - n <= i < |s| ==> IsSpace(s[i])
    ensures n < |s| ==> !IsSpace(s[|s| - n - 1])
  {
    if s != [] && IsSpace(s[|s| - 1]) then 1 + TrailingSpaces(s[..|s| - 1]) else 0
  }

  /** `strings.TrimSpace`: leading and trailing white space removed. */
  function TrimSpace(s: string): (r: string)
    ensures exists i, j :: 0 <= i <= j <= |s| && r == s[i..j] && AllSpace(s[..i]) && AllSpace(s[j..])
    ensures r == [] || (!IsSpace(r[0]) && !IsSpace(r[|r| - 1]))
  {
    var i := LeadingSpaces(s);
    var t := TrailingSpaces(s[i..]);
    var j := |s| - t;
    assert s[i..][|s[i..]| - t..] == s[j..];
    assert t < |s[i..]| ==> s[i..][0] == s[i];
    assert 0 <= i <= j <= |s| && AllSpace(s[..i]) && AllSpace(s[j..]);
    s[i..j]
  }

  /** A string with no white space at either end is left alone. */
  lemma TrimSpaceTrimmed(s: string)
    requires s == [] || (!IsSpace(s[0]) && !IsSpace(s[|s| - 1]))
    ensures TrimSpace(s) == s
  {
    assert LeadingSpaces(s) == 0;
    assert TrailingSpaces(s) == 0;
  }

  /** ASCII case folding, the part of Unicode simple folding that matters for
      the ASCII words the service compares against. */
  function FoldAscii(c: char): char {
    if 'A' <= c <= 'Z' then (c as int + 32) as char else c
  }

  /** `strings.EqualFold`: equal under case folding. */
  predicate EqualFold(a: string, b: string) {
    |a| == |b| && forall i :: 0 <= i < |a| ==> FoldAscii(a[i]) == FoldAscii(b[i])
  }

  /** Index of the first occurrence of `c`, or `|s|` when there is none. */
  function IndexOf(s: string, c: char): (k: nat)
    ensures k <= |s|
    ensures forall i :: 0 <= i < k ==> s[i] != c
    ensures k < |s| ==> s[k] == c
  {
    if s == [] then 0
    else if s[0] == c then 0
    else 1 + IndexOf(s[1..], c)
  }

  /** `strings.SplitN(s, " ", 2)`: the text before the first space and the
      text after it, or the whole string alone when there is no space. */
  function SplitAtFirstSpace(s: string): (parts: seq<string>)
    ensures 1 <= |parts| <= 2
    ensures |parts| == 1 <==> ' ' !in s
    ensures |parts| == 1 ==> parts[0] == s
    ensures |parts| == 2 ==> ' ' !in parts[0] && s == parts[0] + " " + parts[1]
  {
    var k := IndexOf(s, ' ');
    if k == |s| then [s]
    else
      assert s == s[..k] + " " + s[k + 1..];
      [s[..k], s[k + 1..]]
  }

  // First position at or after i that is not white space.
  function SkipSpaces(s: string, i: nat): (j: nat)
    requires i <= |s|
    ensures i <= j <= |s|
    ensures forall x :: i <= x < j ==> IsSpace(s[x])
    ensures j < |s| ==> !IsSpace(s[j])
    decreases |s| - i
  {
    if i < |s| && IsSpace(s[i]) then SkipSpaces(s, i + 1) else i
  }

  // First position at or after i that is white space.
  function SkipWord(s: string, i: nat): (j: nat)
    requires i <= |s|
    ensures i <= j <= |s|
    ensures forall x :: i <= x < j ==> !IsSpace(s[x])
    ensures j < |s| ==> IsSpace(s[j])
    decreases |s| - i
  {
    if i < |s| && !IsSpace(s[i]) then SkipWord(s, i + 1) else i
  }

  // The fields of s[i..].
  function FieldsFrom(s: string, i: nat): seq<string>
    requires i <= |s|
    decreases |s| - i
  {
    var k := SkipSpaces(s, i);
    if k == |s| then [] else [s[k..SkipWord(s, k)]] + FieldsFrom(s, SkipWord(s, k))
  }

  /** `strings.Fields`: the maximal runs of characters that are not white
      space, in order. */
  function Fields(s: string): seq<string> {
    FieldsFrom(s, 0)
  }

  /** `w` stands in `s` at position `p` as one whole white-space-delimited
      field: non-empty, free of white space, and bounded by white space or the
      ends of `s`. */
  predicate FieldAt(s: string, w: string, p: int) {
    0 <= p && p + |w| <= |s| && w != [] && s[p..p + |w|] == w &&
    (forall x :: p <= x < p + |w| ==> !IsSpace(s[x])) &&
    (p == 0 || IsSpace(s[p - 1])) && (p + |w| == |s| || IsSpace(s[p + |w|]))
  }

  predicate IsField(s: string, w: string) {
    exists p :: 0 <= p <= |s| && FieldAt(s, w, p)
  }

  // A position where no field of s can be cut short.
  predicate Boundary(s: string, i: nat) {
    i == 0 || i >= |s| || IsSpace(s[i - 1]) || IsSpace(s[i])
  }

  // Every member of FieldsFrom(s, i) stands in s as a whole field at or
  // after i.
  lemma {:induction false} FieldsFromSound(s: string, i: nat, w: string) returns (p: nat)
    requires i <= |s| && Boundary(s, i)
    requires w in FieldsFrom(s, i)
    ensures i <= p <= |s| && FieldAt(s, w, p)
    decreases |s| - i
  {
    var k := SkipSpaces(s, i);
    var e := SkipWord(s, k);
    if w == s[k..e] {
      p := k;
    } else {
      p := FieldsFromSound(s, e, w);
    }
  }

  // Every whole field of s at or after i is a member of FieldsFrom(s, i).
  lemma {:induction false} FieldsFromComplete(s: string, i: nat, w: string, p: nat)
    requires i <= |s| && Boundary(s, i)
    requires i <= p && FieldAt(s, w, p)
    ensures w in FieldsFrom(s, i)
    decreases |s| - i
  {
    var k := SkipSpaces(s, i);
    assert s[p..p + |w|][0] == s[p];
    var e := SkipWord(s, k);
    if p < e {
      assert s[k..e] == w;
    } else {
      FieldsFromComplete(s, e, w, p);
    }
  }

  /** A word is one of `Fields(s)` exactly when it stands in `s` as a whole
      white-space-delimited field. */
  lemma FieldsExact(s: string, w: string)
    ensures w in Fields(s) <==> IsField(s, w)
  {
    if w in Fields(s) {
      var p := FieldsFromSound(s, 0, w);
    }
    if IsField(s, w) {
      var p :| 0 <= p <= |s| && FieldAt(s, w, p);
      FieldsFromComplete(s, 0, w, p);
    }
  }

  /** Every field is non-empty and free of white space. */
  lemma FieldsAreWords(s: string, w: string)
    requires w in Fields(s)
    ensures w != [] && NoSpace(w)
  {
    FieldsExact(s, w);
    var p :| 0 <= p <= |s| && FieldAt(s, w, p);
    forall x | 0 <= x < |w| ensures !IsSpace(w[x]) {
      assert w[x] == s[p + x];
    }
  }
}
