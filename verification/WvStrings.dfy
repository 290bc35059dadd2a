/** Strings: blanks, searching, and comparison without regard to case. */
module WvStrings {

  /** isspace in the C locale. */
  predicate IsSpace(c: char) {
    c == ' ' || '\t' <= c <= '\r'
  }

  function TrimEnd(s: string): string {
    if s != "" && IsSpace(s[|s| - 1]) then TrimEnd(s[..|s| - 1]) else s
  }

  function TrimStart(s: string): string {
    if s != "" && IsSpace(s[0]) then TrimStart(s[1..]) else s
  }

  function Trim(s: string): string {
    TrimStart(TrimEnd(s))
  }

  predicate Trimmed(s: string) {
    s == "" || (!IsSpace(s[0]) && !IsSpace(s[|s| - 1]))
  }

  lemma {:induction false} TrimEndIs(s: string)
    ensures var r := TrimEnd(s);
      r <= s && (forall i :: |r| <= i < |s| ==> IsSpace(s[i])) && (r == "" || !IsSpace(r[|r| - 1]))
  {
    if s != "" && IsSpace(s[|s| - 1]) {
      TrimEndIs(s[..|s| - 1]);
    }
  }

  lemma {:induction false} TrimStartIs(s: string)
    ensures var r := TrimStart(s);
      && |r| <= |s| && r == s[|s| - |r|..] && (forall i :: 0 <= i < |s| - |r| ==> IsSpace(s[i]))
      && (r == "" || !IsSpace(r[0]))
  {
    if s != "" && IsSpace(s[0]) {
      TrimStartIs(s[1..]);
      BlankInFront(s, TrimStart(s[1..]));
    }
  }

  lemma BlankInFront(s: string, r: string)
    requires s != "" && IsSpace(s[0]) && |r| <= |s| - 1 && r == s[1..][|s| - 1 - |r|..]
    requires forall i :: 0 <= i < |s| - 1 - |r| ==> IsSpace(s[1..][i])
    ensures r == s[|s| - |r|..] && forall i :: 0 <= i < |s| - |r| ==> IsSpace(s[i])
  {
    forall i | 0 <= i < |s| - |r| ensures IsSpace(s[i]) {
      if i > 0 {
        assert s[i] == s[1..][i - 1];
      }
    }
  }

  lemma TrimIsTrimmed(s: string)
    ensures Trimmed(Trim(s))
  {
    TrimEndIs(s);
    TrimStartIs(TrimEnd(s));
  }

  lemma TrimmedStays(s: string)
    requires Trimmed(s)
    ensures Trim(s) == s && TrimEnd(s) == s && TrimStart(s) == s
  {
  }

  lemma TrimPadding(s: string)
    requires Trimmed(s)
    ensures Trim(s + " ") == s && Trim(" " + s) == s
  {
    TrimmedStays(s);
    assert (s + " ")[..|s|] == s && (" " + s)[1..] == s;
    if s == "" {
      assert TrimEnd(" ") == "";
    }
  }

  /** Trimming takes off blanks and nothing else. */
  lemma TrimKeeps(s: string, c: char)
    ensures c in Trim(s) ==> c in s
    ensures !IsSpace(c) ==> (c in Trim(s) <==> c in s)
  {
    var t := TrimEnd(s);
    var r := TrimStart(t);
    TrimEndIs(s);
    TrimStartIs(t);
    SuffixKeeps(t, r, c);
    PrefixKeeps(s, t, c);
  }

  lemma PrefixKeeps(s: string, t: string, c: char)
    requires t <= s && forall i :: |t| <= i < |s| ==> IsSpace(s[i])
    ensures c in t ==> c in s
    ensures !IsSpace(c) ==> (c in t <==> c in s)
  {
  }

  lemma SuffixKeeps(t: string, r: string, c: char)
    requires |r| <= |t| && r == t[|t| - |r|..] && forall i :: 0 <= i < |t| - |r| ==> IsSpace(t[i])
    ensures c in r ==> c in t
    ensures !IsSpace(c) ==> (c in r <==> c in t)
  {
  }

  /** The place of the first C, or the length: strchr. */
  function IndexOf(s: string, c: char): (i: nat)
    ensures i <= |s|
  {
    if s == "" || s[0] == c then 0 else 1 + IndexOf(s[1..], c)
  }

  lemma {:induction false} IndexFound(s: string, c: char)
    ensures var i := IndexOf(s, c); c !in s[..i] && (i < |s| ==> s[i] == c)
  {
    if s == "" || s[0] == c {
    } else {
      IndexFound(s[1..], c);
      var i := IndexOf(s[1..], c);
      assert s[..i + 1] == [s[0]] + s[1..][..i];
    }
  }

  lemma {:induction false} IndexIs(s: string, c: char, i: nat)
    requires i <= |s| && (i < |s| ==> s[i] == c) && c !in s[..i]
    ensures IndexOf(s, c) == i
  {
    if i > 0 {
      assert s[..i][0] == s[0] && s[..i][1..] == s[1..][..i - 1];
      IndexIs(s[1..], c, i - 1);
    }
  }

  function FoldChar(c: char): char {
    if 'A' <= c <= 'Z' then c - 'A' + 'a' else c
  }

  function Fold(s: string): string {
    seq(|s|, i requires 0 <= i < |s| => FoldChar(s[i]))
  }

  /** strcasecmp says equal. */
  predicate Same(a: string, b: string) {
    Fold(a) == Fold(b)
  }

  /** Is one character the other's capital letter? */
  predicate CapitalOf(c: char, d: char) {
    'A' <= c <= 'Z' && d == c + ' '
  }

  /** Equal but for capitals. */
  lemma SameIs(a: string, b: string)
    ensures Same(a, b) <==>
      |a| == |b| && forall i :: 0 <= i < |a| ==> a[i] == b[i] || CapitalOf(a[i], b[i]) || CapitalOf(b[i], a[i])
  {
    assert |Fold(a)| == |a| && |Fold(b)| == |b|;
    if Same(a, b) {
      forall i | 0 <= i < |a| ensures a[i] == b[i] || CapitalOf(a[i], b[i]) || CapitalOf(b[i], a[i]) {
        assert Fold(a)[i] == Fold(b)[i];
      }
    }
  }
}
