/** The text of a configuration file: lines, blanks, and what a line says. */
module ConfText {
  import opened Maybes
  import opened WvStrings

  /** A line that opens a section: in brackets, the first closing one at the very end. */
  predicate SectionLine(s: string) {
    s != "" && s[0] == '[' && s[|s| - 1] == ']' && ']' !in s[..|s| - 1]
  }

  /** parse_section: the name in the brackets. */
  function ParseSection(s: string): Maybe<string> {
    if s == "" || s[0] != '[' then None
    else
      var q := IndexOf(s, ']');
      if q == |s| || q + 1 < |s| then None else Some(Trim(s[1..q]))
  }

  lemma ParseSectionIs(s: string)
    ensures var r := ParseSection(s);
      && (r.Some? <==> SectionLine(s))
      && (r.Some? ==> Trimmed(r.value) && ']' !in r.value)
      && (r.Some? && '\n' !in s ==> '\n' !in r.value)
  {
    IndexFound(s, ']');
    if SectionLine(s) {
      IndexIs(s, ']', |s| - 1);
    }
    var q := IndexOf(s, ']');
    if ParseSection(s).Some? {
      TrimKeeps(s[1..q], ']');
      TrimKeeps(s[1..q], '\n');
      TrimIsTrimmed(s[1..q]);
      assert s[..q] == s[..|s| - 1];
    }
  }

  /** parse_value, and the name before the equal sign. */
  function ParseEntry(s: string): (r: (string, string)) {
    var q := IndexOf(s, '=');
    if q == |s| then (Trim(s), "") else (Trim(s[..q]), Trim(s[q + 1..]))
  }

  function Lines(text: string): seq<string>
    decreases |text|
  {
    if text == "" then []
    else
      var q := IndexOf(text, '\n');
      [text[..q]] + if q < |text| then Lines(text[q + 1..]) else []
  }

  lemma {:induction false} LinesEndNowhere(text: string)
    ensures forall i :: 0 <= i < |Lines(text)| ==> '\n' !in Lines(text)[i]
    decreases |text|
  {
    if text != "" {
      IndexFound(text, '\n');
      var q := IndexOf(text, '\n');
      if q < |text| {
        LinesEndNowhere(text[q + 1..]);
      }
    }
  }

  lemma LinesUnfold(text: string)
    requires text != ""
    ensures var q := IndexOf(text, '\n');
      Lines(text) == [text[..q]] + Lines(if q < |text| then text[q + 1..] else "")
  {
  }

  /** Lines, each with its end. */
  function Text(lines: seq<string>): string {
    if lines == [] then "" else lines[0] + "\n" + Text(lines[1..])
  }

  lemma {:induction false} LinesOfText(lines: seq<string>)
    requires forall i :: 0 <= i < |lines| ==> '\n' !in lines[i]
    ensures Lines(Text(lines)) == lines
  {
    if lines == [] {
    } else {
      var line, rest := lines[0], Text(lines[1..]);
      var text := line + "\n" + rest;
      assert text[..|line|] == line && text[|line| + 1..] == rest;
      IndexIs(text, '\n', |line|);
      LinesOfText(lines[1..]);
    }
  }

  lemma {:induction false} TextAdd(a: seq<string>, b: seq<string>)
    ensures Text(a + b) == Text(a) + Text(b)
  {
    if a == [] {
      assert a + b == b;
    } else {
      assert (a + b)[1..] == a[1..] + b;
      TextAdd(a[1..], b);
    }
  }

  // ---------- entries ----------

  datatype Entry = Entry(name: string, value: string)

  /** What dump prints for an entry, without the end of the line. */
  function EntryLine(e: Entry): string {
    if e.value != "" then e.name + " = " + e.value else e.name + " ="
  }

  /** Entries that a line can say. */
  predicate EntryOk(e: Entry) {
    && e.name != "" && Trimmed(e.name) && '\n' !in e.name && '=' !in e.name
    && Trimmed(e.value) && '\n' !in e.value && !SectionLine(EntryLine(e))
  }

  lemma EntryLineStays(e: Entry)
    requires EntryOk(e)
    ensures Trim(EntryLine(e)) == EntryLine(e) && '\n' !in EntryLine(e)
  {
    var s := EntryLine(e);
    assert s[0] == e.name[0];
    assert s[|s| - 1] == if e.value == "" then '=' else e.value[|e.value| - 1];
    TrimmedStays(s);
  }

  /** The first equal sign is the printed one. */
  lemma SplitLine(s: string, name: string, rest: string)
    requires s == name + " =" + rest && '=' !in name
    ensures IndexOf(s, '=') == |name| + 1 && s[..|name| + 1] == name + " " && s[|name| + 2..] == rest
  {
    assert s[..|name| + 1] == name + " ";
    IndexIs(s, '=', |name| + 1);
  }

  /** Such an entry is read back as it was. */
  lemma EntryRoundTrip(e: Entry)
    requires EntryOk(e)
    ensures ParseSection(EntryLine(e)).None?
    ensures ParseEntry(EntryLine(e)) == (e.name, e.value)
  {
    ParseSectionIs(EntryLine(e));
    if e.value == "" {
      assert EntryLine(e) == e.name + " =" + "";
      ParseSplit(EntryLine(e), e.name, "");
    } else {
      assert EntryLine(e) == e.name + " =" + (" " + e.value);
      ParseSplit(EntryLine(e), e.name, " " + e.value);
      TrimPadding(e.value);
    }
  }

  lemma ParseSplit(s: string, name: string, rest: string)
    requires s == name + " =" + rest && '=' !in name && Trimmed(name)
    ensures ParseEntry(s) == (name, Trim(rest))
  {
    SplitLine(s, name, rest);
    TrimPadding(name);
  }

  /** What a line says that is not a section line and names something. */
  lemma ParsedIsOk(line: string)
    requires Trimmed(line) && '\n' !in line && ParseSection(line).None? && ParseEntry(line).0 != ""
    ensures EntryOk(Entry(ParseEntry(line).0, ParseEntry(line).1))
  {
    var q := IndexOf(line, '=');
    var (name, value) := ParseEntry(line);
    var left, right := line[..q], if q == |line| then "" else line[q + 1..];
    IndexFound(line, '=');
    TrimIsTrimmed(left);
    TrimIsTrimmed(right);
    ParseSectionIs(line);
    TrimKeeps(left, '\n');
    TrimKeeps(right, '\n');
    TrimKeeps(left, '=');
    assert left == line || q < |line|;
    assert name == Trim(left) && value == Trim(right);
    if SectionLine(EntryLine(Entry(name, value))) {
      WasSection(line, q, name, value);
      assert false;
    }
  }

  /** If the entry of a line prints as a section line then the line was one. */
  lemma WasSection(line: string, q: nat, name: string, value: string)
    requires Trimmed(line) && q < |line| && line[q] == '='
    requires name == Trim(line[..q]) && value == Trim(line[q + 1..]) && name != ""
    requires SectionLine(EntryLine(Entry(name, value)))
    ensures SectionLine(line)
  {
    var left, right := line[..q], line[q + 1..];
    PrintedSection(name, value);
    NoneBefore(left, name);
    NoneBeforeLast(right, value);
    JoinSection(left, right);
    CutAt(line, q);
  }

  lemma PrintedSection(name: string, value: string)
    requires name != "" && SectionLine(EntryLine(Entry(name, value)))
    ensures value != "" && name[0] == '[' && ']' !in name
    ensures value[|value| - 1] == ']' && ']' !in value[..|value| - 1]
  {
    var s := EntryLine(Entry(name, value));
    var last := s[|s| - 1];
    assert value == "" ==> last == '=';
    assert last == value[|value| - 1] && s[0] == name[0];
    assert s[..|s| - 1] == name + " = " + value[..|value| - 1];
  }

  lemma CutAt(line: string, q: nat)
    requires q < |line|
    ensures line == line[..q] + [line[q]] + line[q + 1..]
  {
  }

  lemma JoinSection(left: string, right: string)
    requires left != "" && left[0] == '[' && ']' !in left
    requires right != "" && right[|right| - 1] == ']' && ']' !in right[..|right| - 1]
    ensures SectionLine(left + "=" + right)
  {
    var s := left + "=" + right;
    assert s[..|s| - 1] == left + "=" + right[..|right| - 1];
  }

  lemma NoneBefore(left: string, name: string)
    requires name == Trim(left) && name != "" && !IsSpace(left[0]) && ']' !in name
    ensures left[0] == name[0] && ']' !in left
  {
    TrimKeeps(left, ']');
    TrimEndIs(left);
    TrimStartIs(TrimEnd(left));
  }

  lemma NoneBeforeLast(right: string, value: string)
    requires value == Trim(right) && value != "" && right != "" && !IsSpace(right[|right| - 1])
    requires ']' !in value[..|value| - 1]
    ensures right[|right| - 1] == value[|value| - 1] && ']' !in right[..|right| - 1]
  {
    assert TrimEnd(right) == right;
    TrimStartIs(right);
  }

  // ---------- what the lines of a file say ----------

  datatype Statement = Opens(name: string) | Says(entry: Entry) | Blank

  function Parse(raw: string): Statement {
    var line := Trim(raw);
    match ParseSection(line)
    case Some(name) => Opens(name)
    case None =>
      var (name, value) := ParseEntry(line);
      if name == "" then Blank else Says(Entry(name, value))
  }

  function ParseAll(lines: seq<string>): seq<Statement> {
    if lines == [] then [] else [Parse(lines[0])] + ParseAll(lines[1..])
  }

  predicate NameOk(name: string) {
    Trimmed(name) && ']' !in name && '\n' !in name
  }

  predicate StatementOk(s: Statement) {
    match s
    case Opens(name) => NameOk(name)
    case Says(e) => EntryOk(e)
    case Blank => true
  }

  lemma ParseIsOk(raw: string)
    requires '\n' !in raw
    ensures StatementOk(Parse(raw))
  {
    TrimKeeps(raw, '\n');
    TrimIsTrimmed(raw);
    var line := Trim(raw);
    ParseSectionIs(line);
    if ParseSection(line).None? && ParseEntry(line).0 != "" {
      ParsedIsOk(line);
    }
  }

  ghost predicate AllStatementsOk(ss: seq<Statement>) {
    forall i :: 0 <= i < |ss| ==> StatementOk(ss[i])
  }

  lemma OneMoreOk(s: Statement, ss: seq<Statement>)
    requires StatementOk(s) && AllStatementsOk(ss)
    ensures AllStatementsOk([s] + ss)
  {
  }

  lemma {:induction false} ParseAllIsOk(lines: seq<string>)
    requires forall i :: 0 <= i < |lines| ==> '\n' !in lines[i]
    ensures AllStatementsOk(ParseAll(lines))
  {
    if lines != [] {
      ParseIsOk(lines[0]);
      ParseAllIsOk(lines[1..]);
      OneMoreOk(Parse(lines[0]), ParseAll(lines[1..]));
    }
  }

  lemma {:induction false} ParseAllAdd(a: seq<string>, b: seq<string>)
    ensures ParseAll(a + b) == ParseAll(a) + ParseAll(b)
  {
    if a == [] {
      assert a + b == b;
    } else {
      assert (a + b)[1..] == a[1..] + b;
      ParseAllAdd(a[1..], b);
    }
  }

  lemma ParseBlank()
    ensures Parse("") == Blank
  {
  }

  lemma ParseEntryLine(e: Entry)
    requires EntryOk(e)
    ensures Parse(EntryLine(e)) == Says(e)
  {
    EntryLineStays(e);
    EntryRoundTrip(e);
  }

  lemma ParseHeader(name: string)
    requires NameOk(name)
    ensures Parse("[" + name + "]") == Opens(name)
  {
    var line := "[" + name + "]";
    TrimmedStays(line);
    BracketedName(line, name);
  }

  lemma BracketedName(line: string, name: string)
    requires NameOk(name) && line == "[" + name + "]"
    ensures ParseSection(line) == Some(name)
  {
    assert line[..|name| + 1] == "[" + name;
    IndexIs(line, ']', |name| + 1);
    assert line[1..|name| + 1] == name;
    TrimmedStays(name);
  }
}
