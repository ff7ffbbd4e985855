/** The pieces of Go's `strings` and `bytes` packages that the modelled code
    uses: prefix and suffix tests, `Index`, `TrimSpace`, `Split` and `Join`.
    Byte strings and Go strings are both `seq<char>` here. */
module Strs {

  /** strings.HasPrefix / bytes.HasPrefix */
  predicate HasPrefix(s: string, prefix: string)
  {
    |prefix| <= |s| && s[..|prefix|] == prefix
  }

  /** strings.HasSuffix */
  predicate HasSuffix(s: string, suffix: string)
  {
    |suffix| <= |s| && s[|s| - |suffix|..] == suffix
  }

  /** `pat` occurs in `s` starting at index `i`. */
  predicate OccursAt(s: string, pat: string, i: int)
  {
    0 <= i && i + |pat| <= |s| && s[i..i + |pat|] == pat
  }

  /** bytes.Index: the index of the first occurrence of `pat` in `s`, or -1
      (IndexOfFirst says that no earlier index matches). */
  function IndexOf(s: string, pat: string): (r: int)
    ensures r == -1 || OccursAt(s, pat, r)
  {
    IndexFrom(s, pat, 0)
  }

  function IndexFrom(s: string, pat: string, k: nat): (r: int)
    decreases |s| - k
    ensures r == -1 || (k <= r && OccursAt(s, pat, r))
  {
    if k + |pat| > |s| then -1
    else if s[k..k + |pat|] == pat then k
    else IndexFrom(s, pat, k + 1)
  }

  /** IndexOf finds the first occurrence, and -1 exactly when there is none. */
  lemma IndexOfFirst(s: string, pat: string)
    ensures IndexOf(s, pat) >= 0 ==> forall j | 0 <= j < IndexOf(s, pat) :: !OccursAt(s, pat, j)
    ensures IndexOf(s, pat) == -1 <==> forall j :: !OccursAt(s, pat, j)
  {
    IndexFromFirst(s, pat, 0);
  }

  lemma {:induction false} IndexFromFirst(s: string, pat: string, k: nat)
    decreases |s| - k
    ensures IndexFrom(s, pat, k) >= 0 ==> forall j | k <= j < IndexFrom(s, pat, k) :: !OccursAt(s, pat, j)
    ensures IndexFrom(s, pat, k) == -1 ==> forall j | k <= j :: !OccursAt(s, pat, j)
  {
    if k + |pat| <= |s| && s[k..k + |pat|] != pat {
      IndexFromFirst(s, pat, k + 1);
    }
  }

  /** unicode.IsSpace: the white-space characters `bytes.TrimSpace` removes. */
  predicate IsSpace(c: char)
  {
    c == ' ' || c == '\t' || c == '\n' || c == '\r' || c == '\U{B}' || c == '\U{C}'
    || c == '\U{85}' || c == '\U{A0}' || c == '\U{1680}'
    || ('\U{2000}' <= c <= '\U{200A}')
    || c == '\U{2028}' || c == '\U{2029}' || c == '\U{202F}' || c == '\U{205F}' || c == '\U{3000}'
  }

  predicate AllSpace(s: string)
  {
    forall i | 0 <= i < |s| :: IsSpace(s[i])
  }

  /** The number of leading white-space characters of `s`. */
  function LeadingSpace(s: string): (n: nat)
    ensures n <= |s| && AllSpace(s[..n])
    ensures n < |s| ==> !IsSpace(s[n])
  {
    if |s| == 0 || !IsSpace(s[0]) then 0
    else
      var n := 1 + LeadingSpace(s[1..]);
      assert s[..n] == [s[0]] + s[1..][..n - 1];
      n
  }

  /** The length of `s` without its trailing white space. */
  function TrailingStart(s: string): (n: nat)
    ensures n <= |s| && AllSpace(s[n..])
    ensures n > 0 ==> !IsSpace(s[n - 1])
  {
    if |s| == 0 || !IsSpace(s[|s| - 1]) then |s|
    else
      var t := s[..|s| - 1];
      var n := TrailingStart(t);
      assert forall k | n <= k < |s| - 1 :: s[k] == t[n..][k - n];
      n
  }

  /** bytes.TrimSpace: `s` without its leading and trailing white space. */
  function TrimSpace(s: string): (r: string)
    ensures r == [] || (!IsSpace(r[0]) && !IsSpace(r[|r| - 1]))
  {
    var i := LeadingSpace(s);
    var t := s[i..];
    t[..TrailingStart(t)]
  }

  /** The trimmed string is a window of `s` with only white space around it. */
  lemma TrimSpaceWindow(s: string)
    ensures exists i :: 0 <= i <= |s| - |TrimSpace(s)| && s[i..i + |TrimSpace(s)|] == TrimSpace(s)
                        && AllSpace(s[..i]) && AllSpace(s[i + |TrimSpace(s)|..])
  {
    var i := LeadingSpace(s);
    var t := s[i..];
    var j := TrailingStart(t);
    assert t[..j] == s[i..i + j];
    assert s[i + j..] == t[j..];
  }

  /** Trimming is idempotent. */
  lemma TrimSpaceIdempotent(s: string)
    ensures TrimSpace(TrimSpace(s)) == TrimSpace(s)
  {
    var t := TrimSpace(s);
    assert LeadingSpace(t) == 0;
    assert TrailingStart(t) == |t|;
  }

  /** bytes.Split with a one-byte separator: the pieces of `s` between the
      occurrences of `d`; there is always one more piece than separators. */
  function Split(s: string, d: char): (parts: seq<string>)
    ensures |parts| >= 1
    ensures forall i | 0 <= i < |parts| :: d !in parts[i]
  {
    if |s| == 0 then [""]
    else
      var rest := Split(s[1..], d);
      if s[0] == d then [""] + rest else [[s[0]] + rest[0]] + rest[1..]
  }

  /** strings.Join / bytes.Join */
  function Join(parts: seq<string>, sep: string): string
  {
    if |parts| == 0 then ""
    else if |parts| == 1 then parts[0]
    else parts[0] + sep + Join(parts[1..], sep)
  }

  /** Joining the pieces of a split with the separator gives back the input. */
  lemma {:induction false} JoinSplit(s: string, d: char)
    ensures Join(Split(s, d), [d]) == s
  {
    if |s| > 0 {
      JoinSplit(s[1..], d);
      var rest := Split(s[1..], d);
      if s[0] != d {
        if |rest| == 1 {
          assert Split(s, d) == [[s[0]] + rest[0]];
        } else {
          assert Split(s, d)[1..] == rest[1..];
        }
      }
      assert s == [s[0]] + s[1..];
    }
  }

  /** Splitting `a + [d] + b` when `a` holds no `d` yields `a` first. */
  lemma {:induction false} SplitAfterPiece(a: string, d: char, b: string)
    requires d !in a
    ensures Split(a + [d] + b, d) == [a] + Split(b, d)
  {
    if |a| > 0 {
      SplitAfterPiece(a[1..], d, b);
      assert (a + [d] + b)[1..] == a[1..] + [d] + b;
      assert [a[0]] + a[1..] == a;
    } else {
      assert a + [d] + b == [d] + b;
    }
  }

  /** Splitting a string without `d` yields just that string. */
  lemma {:induction false} SplitWithout(a: string, d: char)
    requires d !in a
    ensures Split(a, d) == [a]
  {
    if |a| > 0 {
      SplitWithout(a[1..], d);
      assert [a[0]] + a[1..] == a;
    }
  }

  /** Splitting a join of pieces that hold no separator gives back the pieces. */
  lemma {:induction false} SplitJoin(parts: seq<string>, d: char)
    requires |parts| >= 1
    requires forall i | 0 <= i < |parts| :: d !in parts[i]
    ensures Split(Join(parts, [d]), d) == parts
  {
    if |parts| == 1 {
      SplitWithout(parts[0], d);
    } else {
      SplitJoin(parts[1..], d);
      SplitAfterPiece(parts[0], d, Join(parts[1..], [d]));
      assert [parts[0]] + parts[1..] == parts;
    }
  }

  /** A character absent from `s` is absent from every piece of its split. */
  lemma {:induction false} SplitPiecesWithout(s: string, d: char, c: char)
    requires c !in s
    ensures forall i | 0 <= i < |Split(s, d)| :: c !in Split(s, d)[i]
  {
    if |s| > 0 {
      SplitPiecesWithout(s[1..], d, c);
      assert s == [s[0]] + s[1..];
      var rest := Split(s[1..], d);
      if s[0] != d {
        assert forall i | 1 <= i < |Split(s, d)| :: Split(s, d)[i] == rest[i];
      } else {
        assert forall i | 1 <= i < |Split(s, d)| :: Split(s, d)[i] == rest[i - 1];
      }
    }
  }

  /** A character absent from every piece and from the separator is absent
      from the join. */
  lemma {:induction false} JoinWithout(parts: seq<string>, sep: string, c: char)
    requires forall i | 0 <= i < |parts| :: c !in parts[i]
    requires c !in sep
    ensures c !in Join(parts, sep)
  {
    if |parts| > 1 {
      JoinWithout(parts[1..], sep, c);
      assert parts[0] + sep + Join(parts[1..], sep) == Join(parts, sep);
    }
  }
}
