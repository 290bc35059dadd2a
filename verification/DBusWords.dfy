/** What the D-Bus authentication lines are made of: decimal and hexadecimal numbers, and words. */
module DBusWords {
  import opened Maybes
  import opened WvStrings

  // ---------- decimal numbers ----------

  function Decimal(n: nat): (r: string)
    ensures r != "" && forall i :: 0 <= i < |r| ==> '0' <= r[i] <= '9'
  {
    if n < 10 then ['0' + n as char] else Decimal(n / 10) + ['0' + (n % 10) as char]
  }

  /** The number that the digits at the start of S make. */
  function Num(s: string): nat {
    NumFrom(0, s)
  }

  function NumFrom(n: nat, s: string): nat
    decreases |s|
  {
    if s == "" || !('0' <= s[0] <= '9') then n else NumFrom(10 * n + (s[0] - '0') as nat, s[1..])
  }

  lemma {:induction false} NumAppend(n: nat, s: string, digit: char)
    requires '0' <= digit <= '9' && forall i :: 0 <= i < |s| ==> '0' <= s[i] <= '9'
    ensures NumFrom(n, s + [digit]) == 10 * NumFrom(n, s) + (digit - '0') as nat
    decreases |s|
  {
    if s == "" {
      assert (s + [digit])[1..] == "";
    } else {
      assert (s + [digit])[1..] == s[1..] + [digit];
      NumAppend(10 * n + (s[0] - '0') as nat, s[1..], digit);
    }
  }

  lemma {:induction false} DecimalRoundTrip(n: nat)
    ensures Num(Decimal(n)) == n
  {
    if n < 10 {
      NumAppend(0, "", '0' + n as char);
      assert "" + Decimal(n) == Decimal(n);
    } else {
      DecimalRoundTrip(n / 10);
      NumAppend(0, Decimal(n / 10), '0' + (n % 10) as char);
    }
  }

  // ---------- hexadecimal numbers ----------

  function HexDigit(n: nat): (c: char)
    requires n < 16
    ensures '0' <= c <= '9' || 'a' <= c <= 'f'
  {
    if n < 10 then '0' + n as char else 'a' + (n - 10) as char
  }

  /** fromhex, for hexadecimal digits. */
  function HexValue(c: char): Maybe<nat> {
    if '0' <= c <= '9' then Some((c - '0') as nat)
    else if 'A' <= c <= 'F' then Some((c - 'A') as nat + 10)
    else if 'a' <= c <= 'f' then Some((c - 'a') as nat + 10)
    else None
  }

  predicate Bytes(s: string) {
    forall i :: 0 <= i < |s| ==> s[i] < 256 as char
  }

  function HexEncode(s: string): (r: string)
    requires Bytes(s)
    ensures |r| == 2 * |s| && forall i :: 0 <= i < |r| ==> '0' <= r[i] <= '9' || 'a' <= r[i] <= 'f'
  {
    if s == "" then ""
    else
      var n := s[0] as nat;
      [HexDigit(n / 16), HexDigit(n % 16)] + HexEncode(s[1..])
  }

  /** The decoder after FIRST, the digit that waits for its second half. */
  function HexDecodeFrom(first: Maybe<nat>, s: string): Maybe<string>
    requires first.Some? ==> first.value < 16
    decreases |s|
  {
    if s == "" then if first.Some? then None else Some("")
    else
      var digit := HexValue(s[0]);
      if digit.Some? then
        if first.None? then HexDecodeFrom(digit, s[1..])
        else
          var rest := HexDecodeFrom(None, s[1..]);
          if rest.None? then None else Some([(first.value * 16 + digit.value) as char] + rest.value)
      else if IsSpace(s[0]) then HexDecodeFrom(first, s[1..])
      else None
  }

  /** strflushstr of the decoder, which gives an empty string for bad input. */
  function HexDecode(s: string): string {
    var r := HexDecodeFrom(None, s);
    if r.None? then "" else r.value
  }

  lemma {:induction false} HexRoundTrip(s: string)
    requires Bytes(s)
    ensures HexDecodeFrom(None, HexEncode(s)) == Some(s)
  {
    if s == "" {
    } else {
      HexRoundTrip(s[1..]);
      var n := s[0] as nat;
      HexOneByte(n / 16, n % 16, HexEncode(s[1..]));
      assert (n / 16 * 16 + n % 16) as char == s[0];
      assert s == [s[0]] + s[1..];
    }
  }

  lemma HexDigitValue(n: nat)
    requires n < 16
    ensures HexValue(HexDigit(n)) == Some(n)
  {
  }

  lemma HexOneByte(high: nat, low: nat, code: string)
    requires high < 16 && low < 16
    ensures var rest := HexDecodeFrom(None, code);
      HexDecodeFrom(None, [HexDigit(high), HexDigit(low)] + code)
      == if rest.None? then None else Some([(high * 16 + low) as char] + rest.value)
  {
    var s := [HexDigit(high), HexDigit(low)] + code;
    assert s[1..][0] == HexDigit(low) && s[1..][1..] == code;
    HexDigitValue(high);
    HexDigitValue(low);
    assert HexDecodeFrom(None, s) == HexDecodeFrom(Some(high), s[1..]);
  }

  // ---------- words ----------

  predicate IsDelimiter(c: char) {
    c == ' ' || c == '\t' || c == '\r' || c == '\n'
  }

  /** strcspn. */
  function WordLength(s: string): (n: nat)
    ensures n <= |s| && (n < |s| ==> IsDelimiter(s[n]))
  {
    if s == "" || IsDelimiter(s[0]) then 0 else 1 + WordLength(s[1..])
  }

  function SkipDelimiters(s: string): (r: string)
    ensures |r| <= |s|
    ensures s != "" && IsDelimiter(s[0]) ==> |r| < |s|
    ensures r != "" ==> !IsDelimiter(r[0])
  {
    if s != "" && IsDelimiter(s[0]) then SkipDelimiters(s[1..]) else s
  }

  /** split: delimiters at the beginning and at the end make an empty word. */
  function Split(s: string): (words: seq<string>)
    ensures words != []
  {
    var n := WordLength(s);
    [s[..n]] + MoreWords(s[n..])
  }

  function MoreWords(s: string): seq<string>
    requires s != "" ==> IsDelimiter(s[0])
    decreases |s|
  {
    if s == "" then []
    else
      var t := SkipDelimiters(s);
      var n := WordLength(t);
      [t[..n]] + MoreWords(t[n..])
  }

  /** popstr K times. */
  function Word(words: seq<string>, k: nat): string {
    if k < |words| then words[k] else ""
  }

  predicate IsWord(s: string) {
    s != "" && forall i :: 0 <= i < |s| ==> !IsDelimiter(s[i])
  }

  lemma {:induction false} WordEnds(s: string, word: string, rest: string)
    requires s == word + rest && (forall i :: 0 <= i < |word| ==> !IsDelimiter(word[i]))
    requires rest != "" ==> IsDelimiter(rest[0])
    ensures WordLength(s) == |word| && s[..|word|] == word && s[|word|..] == rest
    decreases |word|
  {
    if word != "" {
      assert s[0] == word[0] && s[1..] == word[1..] + rest;
      WordEnds(s[1..], word[1..], rest);
    }
  }

  lemma SplitOne(word: string)
    requires IsWord(word)
    ensures Split(word) == [word]
  {
    WordEnds(word, word, "");
  }

  lemma MoreWordsOne(word: string, rest: string)
    requires IsWord(word) && (rest != "" ==> IsDelimiter(rest[0]))
    ensures MoreWords(" " + word + rest) == [word] + MoreWords(rest)
  {
    var s := " " + word + rest;
    assert s[1..] == word + rest;
    assert SkipDelimiters(s) == word + rest;
    WordEnds(word + rest, word, rest);
  }

  lemma SplitThree(a: string, b: string, c: string)
    requires IsWord(a) && IsWord(b) && IsWord(c)
    ensures Split(a + " " + b + " " + c) == [a, b, c]
  {
    var s := a + " " + b + " " + c;
    assert s == a + (" " + b + (" " + c));
    WordEnds(s, a, " " + b + (" " + c));
    MoreWordsOne(b, " " + c);
    assert " " + c == " " + c + "";
    MoreWordsOne(c, "");
  }

  predicate IsGap(s: string) {
    s != "" && forall i :: 0 <= i < |s| ==> s[i] in " \t\r\n"
  }

  lemma {:induction false} SkipGap(gap: string, rest: string)
    requires (forall i :: 0 <= i < |gap| ==> IsDelimiter(gap[i])) && (rest != "" ==> !IsDelimiter(rest[0]))
    ensures SkipDelimiters(gap + rest) == rest
  {
    if gap == "" {
      assert gap + rest == rest;
    } else {
      assert (gap + rest)[1..] == gap[1..] + rest;
      SkipGap(gap[1..], rest);
    }
  }

  /** WORDS, with GAPS in front of each. */
  function Spaced(gaps: seq<string>, words: seq<string>): string
    requires |gaps| == |words|
  {
    if words == [] then "" else gaps[0] + (words[0] + Spaced(gaps[1..], words[1..]))
  }

  lemma SpacedStart(gaps: seq<string>, words: seq<string>)
    requires |gaps| == |words| && forall g <- gaps :: IsGap(g)
    ensures var s := Spaced(gaps, words); s != "" ==> IsDelimiter(s[0])
  {
    if words != [] {
      assert gaps[0] in gaps;
    }
  }

  lemma {:induction false} MoreWordsSpaced(gaps: seq<string>, words: seq<string>)
    requires |gaps| == |words| && (forall g <- gaps :: IsGap(g)) && forall w <- words :: IsWord(w)
    ensures var s := Spaced(gaps, words); (s != "" ==> IsDelimiter(s[0])) && MoreWords(s) == words
    decreases |words|
  {
    SpacedStart(gaps, words);
    if words != [] {
      var gap, word, rest := gaps[0], words[0], Spaced(gaps[1..], words[1..]);
      assert gap in gaps && word in words;
      SpacedStart(gaps[1..], words[1..]);
      SkipGap(gap, word + rest);
      WordEnds(word + rest, word, rest);
      MoreWordsSpaced(gaps[1..], words[1..]);
      assert words == [word] + words[1..];
    }
  }

  /** The blanks between words. */
  lemma DelimitersAre(c: char)
    ensures IsDelimiter(c) <==> c in " \t\r\n"
  {
  }

  /** However many words there are and whatever blanks between them, split finds the words. */
  lemma SplitWords(first: string, gaps: seq<string>, words: seq<string>)
    requires IsWord(first) && |gaps| == |words| && (forall g <- gaps :: IsGap(g)) && forall w <- words :: IsWord(w)
    ensures Split(first + Spaced(gaps, words)) == [first] + words
  {
    MoreWordsSpaced(gaps, words);
    WordEnds(first + Spaced(gaps, words), first, Spaced(gaps, words));
  }

  /** The hexadecimal digits, in small letters when written, and either way when read. */
  lemma HexDigits(n: nat, c: char)
    requires n < 16
    ensures HexDigit(n) == "0123456789abcdef"[n]
    ensures HexValue(c) == Some(n) <==> c == "0123456789abcdef"[n] || c == "0123456789ABCDEF"[n]
  {
  }

  /** Blanks between hexadecimal digits do not matter. */
  lemma HexSkips(first: Maybe<nat>, c: char, s: string)
    requires (first.Some? ==> first.value < 16) && IsSpace(c)
    ensures HexDecodeFrom(first, [c] + s) == HexDecodeFrom(first, s)
  {
    assert ([c] + s)[1..] == s;
  }

  function DigitCount(s: string): nat {
    if s == "" then 0 else (if HexValue(s[0]).Some? then 1 else 0) + DigitCount(s[1..])
  }

  ghost predicate HasStranger(s: string) {
    exists i :: 0 <= i < |s| && HexValue(s[i]).None? && !IsSpace(s[i])
  }

  /** Anything but digits and blanks, or half a byte at the end, makes the decoder fail, and nothing else does. */
  lemma {:induction false} HexFails(first: Maybe<nat>, s: string)
    requires first.Some? ==> first.value < 16
    ensures HexDecodeFrom(first, s).None? <==>
      HasStranger(s) || (DigitCount(s) + if first.Some? then 1 else 0) % 2 == 1
    decreases |s|
  {
    if s != "" {
      var digit := HexValue(s[0]);
      StrangerLater(s);
      if digit.Some? {
        HexFails(if first.None? then digit else None, s[1..]);
      } else if IsSpace(s[0]) {
        HexFails(first, s[1..]);
      }
    }
  }

  lemma StrangerLater(s: string)
    requires s != ""
    ensures HasStranger(s) <==> (HexValue(s[0]).None? && !IsSpace(s[0])) || HasStranger(s[1..])
  {
    if i :| 0 < i < |s| && HexValue(s[i]).None? && !IsSpace(s[i]) {
      assert s[1..][i - 1] == s[i];
    }
    if i :| 0 <= i < |s[1..]| && HexValue(s[1..][i]).None? && !IsSpace(s[1..][i]) {
      assert s[i + 1] == s[1..][i];
    }
  }

  lemma BadHexIsEmpty(s: string)
    requires HexDecodeFrom(None, s).None?
    ensures HexDecode(s) == ""
  {
  }
}
