/** The parts of Go's `strings` package the Authorization header parsing relies on:
    `Index`, `Split` (with `Join`, its inverse) and `TrimSpace` (with `unicode.IsSpace`). */
module GoStrings {
  import opened Errors

  /** `sep` occurs in `s` starting at position `k`. */
  predicate OccursAt(s: string, sep: string, k: int)
  {
    0 <= k && k + |sep| <= |s| && s[k..k + |sep|] == sep
  }

  /** strings.Contains */
  predicate Contains(s: string, sep: string)
  {
    exists k :: 0 <= k <= |s| && OccursAt(s, sep, k)
  }

  /** The first occurrence of `sep` in `s` at or after position `k`. */
  function IndexFrom(s: string, sep: string, k: nat): (r: Option<nat>)
    decreases |s| - k
    ensures r.Some? ==> (k <= r.value && OccursAt(s, sep, r.value)
      && forall j :: k <= j < r.value ==> !OccursAt(s, sep, j))
    ensures r.None? ==> forall j :: k <= j ==> !OccursAt(s, sep, j)
  {
    if k + |sep| > |s| then None
    else if s[k..k + |sep|] == sep then Some(k)
    else IndexFrom(s, sep, k + 1)
  }

  /** strings.Index: the first occurrence of `sep` in `s`, if any. */
  function Index(s: string, sep: string): (r: Option<nat>)
    ensures r.Some? ==> OccursAt(s, sep, r.value) && forall j :: 0 <= j < r.value ==> !OccursAt(s, sep, j)
    ensures r.None? <==> !Contains(s, sep)
  {
    IndexFrom(s, sep, 0)
  }

  /** strings.Split with a non-empty separator: the pieces between the non-overlapping
      occurrences of `sep`, found from the left. */
  function Split(s: string, sep: string): (r: seq<string>)
    requires |sep| > 0
    decreases |s|
    ensures |r| >= 1
  {
    match Index(s, sep)
    case None => [s]
    case Some(m) => [s[..m]] + Split(s[m + |sep|..], sep)
  }

  /** strings.Join */
  function Join(parts: seq<string>, sep: string): string
  {
    if |parts| == 0 then ""
    else if |parts| == 1 then parts[0]
    else parts[0] + sep + Join(parts[1..], sep)
  }

  /** Joining the pieces of a split gives back the original text. */
  lemma {:induction false} JoinSplit(s: string, sep: string)
    requires |sep| > 0
    ensures Join(Split(s, sep), sep) == s
    decreases |s|
  {
    match Index(s, sep)
    case None =>
    case Some(m) =>
      var rest := Split(s[m + |sep|..], sep);
      JoinSplit(s[m + |sep|..], sep);
      assert ([s[..m]] + rest)[1..] == rest;
      calc {
        Join(Split(s, sep), sep);
        s[..m] + sep + Join(rest, sep);
        s[..m] + s[m..m + |sep|] + s[m + |sep|..];
        s;
      }
  }

  /** No piece of a split contains the separator. */
  lemma {:induction false} SplitPiecesLackSep(s: string, sep: string)
    requires |sep| > 0
    ensures forall i :: 0 <= i < |Split(s, sep)| ==> !Contains(Split(s, sep)[i], sep)
    decreases |s|
  {
    match Index(s, sep)
    case None =>
    case Some(m) =>
      var rest := Split(s[m + |sep|..], sep);
      SplitPiecesLackSep(s[m + |sep|..], sep);
      PrefixBeforeFirstLacksSep(s, sep, m);
      assert Split(s, sep) == [s[..m]] + rest;
  }

  lemma PrefixBeforeFirstLacksSep(s: string, sep: string, m: nat)
    requires |sep| > 0 && m <= |s| && forall j :: 0 <= j < m ==> !OccursAt(s, sep, j)
    ensures !Contains(s[..m], sep)
  {
    forall k | OccursAt(s[..m], sep, k) ensures false {
      assert s[..m][k..k + |sep|] == s[k..k + |sep|];
      assert OccursAt(s, sep, k);
    }
  }

  /** Text without the first character of `sep` does not contain `sep`. */
  lemma LacksHeadLacksSep(s: string, sep: string)
    requires |sep| > 0 && forall k :: 0 <= k < |s| ==> s[k] != sep[0]
    ensures !Contains(s, sep)
  {
    forall k | 0 <= k <= |s| ensures !OccursAt(s, sep, k) {
      if k + |sep| <= |s| {
        assert s[k..k + |sep|][0] == s[k];
      }
    }
  }

  /** The first character of `sep` does not occur again in it, so two occurrences of `sep`
      can never overlap. */
  predicate HeadOccursOnce(sep: string)
  {
    |sep| > 0 && forall d :: 0 < d < |sep| ==> sep[d] != sep[0]
  }

  /** An occurrence that ends within the prefix `a` is an occurrence in `a`. */
  lemma OccurrenceInPrefix(a: string, rest: string, sep: string, k: nat)
    requires OccursAt(a + rest, sep, k) && k + |sep| <= |a|
    ensures OccursAt(a, sep, k)
  {
    assert a[k..k + |sep|] == (a + rest)[k..k + |sep|];
  }

  /** Two occurrences that overlap force the first character of `sep` to reappear in it. */
  lemma OverlapRepeatsHead(s: string, sep: string, k: nat, j: nat)
    requires OccursAt(s, sep, k) && OccursAt(s, sep, j) && k < j < k + |sep|
    ensures sep[j - k] == sep[0]
  {
    assert s[j] == s[j..j + |sep|][0];
    assert s[j] == s[k..k + |sep|][j - k];
  }

  /** With such a separator, text made of two pieces free of the separator joined by it
      splits back into exactly those two pieces. */
  lemma SplitTwo(a: string, b: string, sep: string)
    requires HeadOccursOnce(sep) && !Contains(a, sep) && !Contains(b, sep)
    ensures Split(a + sep + b, sep) == [a, b]
  {
    var s := a + sep + b;
    assert s[|a|..|a| + |sep|] == sep;
    assert OccursAt(s, sep, |a|);
    forall k | 0 <= k < |a| ensures !OccursAt(s, sep, k) {
      if OccursAt(s, sep, k) {
        if k + |sep| <= |a| {
          OccurrenceInPrefix(a, sep + b, sep, k);
        } else {
          OverlapRepeatsHead(s, sep, k, |a|);
        }
      }
    }
    assert Index(s, sep) == Some(|a|);
    assert s[..|a|] == a;
    assert s[|a| + |sep|..] == b;
    assert Index(b, sep) == None;
  }

  /** unicode.IsSpace: the Latin-1 spaces `\t \n \v \f \r`, space, U+0085 and U+00A0, and
      the other characters with the White_Space property. */
  predicate IsSpace(c: char)
  {
    || c == '\t' || c == '\n' || c == '\U{000B}' || c == '\U{000C}' || c == '\r' || c == ' '
    || c == '\U{0085}' || c == '\U{00A0}' || c == '\U{1680}'
    || ('\U{2000}' <= c <= '\U{200A}')
    || c == '\U{2028}' || c == '\U{2029}' || c == '\U{202F}' || c == '\U{205F}' || c == '\U{3000}'
  }

  /** The number of white-space characters `s` starts with. */
  function LeadingSpaces(s: string): (n: nat)
    ensures n <= |s| && forall k :: 0 <= k < n ==> IsSpace(s[k])
    ensures n == |s| || !IsSpace(s[n])
  {
    if s != [] && IsSpace(s[0]) then 1 + LeadingSpaces(s[1..]) else 0
  }

  function TrimTrailing(s: string): (r: string)
    ensures |r| <= |s| && r == s[..|r|]
    ensures forall k :: |r| <= k < |s| ==> IsSpace(s[k])
    ensures r == [] || !IsSpace(r[|r| - 1])
  {
    if s != [] && IsSpace(s[|s| - 1]) then TrimTrailing(s[..|s| - 1]) else s
  }

  /** strings.TrimSpace: the slice of `s` left once its leading and trailing white space is
      cut off; it neither starts nor ends with white space. */
  function TrimSpace(s: string): (r: string)
    ensures var i := LeadingSpaces(s);
      && i + |r| <= |s| && r == s[i..i + |r|]
      && forall k :: i + |r| <= k < |s| ==> IsSpace(s[k])
    ensures r == [] || (!IsSpace(r[0]) && !IsSpace(r[|r| - 1]))
  {
    var i := LeadingSpaces(s);
    var r := TrimTrailing(s[i..]);
    assert forall k :: i + |r| <= k < |s| ==> s[k] == s[i..][k - i];
    r
  }

  /** Text that neither starts nor ends with white space is left as it is. */
  lemma TrimSpaceOfUnpadded(s: string)
    requires s == [] || (!IsSpace(s[0]) && !IsSpace(s[|s| - 1]))
    ensures TrimSpace(s) == s
  {
    assert LeadingSpaces(s) == 0;
    assert s[0..] == s;
    assert TrimTrailing(s) == s;
  }

  /** Trimming twice is trimming once. */
  lemma TrimSpaceIdempotent(s: string)
    ensures TrimSpace(TrimSpace(s)) == TrimSpace(s)
  {
    TrimSpaceOfUnpadded(TrimSpace(s));
  }
}
