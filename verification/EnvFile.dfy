/** Reading and writing .env files: remote/env/parser.go and writer.go. */
module EnvFiles {
  import opened Common

  datatype Variable = Variable(key: string, value: string)

  datatype EnvFile = EnvFile(variables: seq<Variable>, comments: seq<string>)

  // ---------------------------------------------------------------------
  // Strings
  // ---------------------------------------------------------------------

  function TrimLeft(s: string): string {
    if s != "" && IsSpace(s[0]) then TrimLeft(s[1..]) else s
  }

  function TrimRight(s: string): string {
    if s != "" && IsSpace(s[|s| - 1]) then TrimRight(s[..|s| - 1]) else s
  }

  /** strings.TrimSpace */
  function Trim(s: string): string {
    TrimRight(TrimLeft(s))
  }

  predicate Trimmed(s: string) {
    s != "" ==> !IsSpace(s[0]) && !IsSpace(s[|s| - 1])
  }

  lemma TrimTrimmed(s: string)
    requires Trimmed(s)
    ensures Trim(s) == s
  {
  }

  function Index(s: string, c: char): (i: int)
    ensures -1 <= i < |s|
    ensures i >= 0 ==> s[i] == c
    ensures forall j :: 0 <= j < (if i < 0 then |s| else i) ==> s[j] != c
  {
    if s == "" then -1
    else if s[0] == c then 0
    else
      var i := Index(s[1..], c);
      if i < 0 then -1 else i + 1
  }

  /** strings.ReplaceAll for a single character */
  function Replace(s: string, c: char, with: string): string {
    if s == "" then "" else (if s[0] == c then with else [s[0]]) + Replace(s[1..], c, with)
  }

  lemma {:induction false} ReplaceGrows(s: string, c: char, with: string)
    requires |with| >= 2
    ensures |Replace(s, c, with)| >= |s|
    ensures c in s ==> |Replace(s, c, with)| > |s|
    ensures c !in s ==> Replace(s, c, with) == s
  {
    if s != "" {
      ReplaceGrows(s[1..], c, with);
      assert c in s <==> s[0] == c || c in s[1..];
    }
  }

  lemma {:induction false} ReplaceKeeps(s: string, c: char, with: string)
    ensures forall x :: x in Replace(s, c, with) ==> x in s || x in with
    ensures forall x :: x in s && x != c ==> x in Replace(s, c, with)
  {
    if s != "" {
      ReplaceKeeps(s[1..], c, with);
      assert s == [s[0]] + s[1..];
    }
  }

  // ---------------------------------------------------------------------
  // Lines
  // ---------------------------------------------------------------------

  function DropCR(s: string): string {
    if s != "" && s[|s| - 1] == '\r' then s[..|s| - 1] else s
  }

  /** The lines a bufio.Scanner delivers. */
  function Lines(text: string): seq<string>
    decreases |text|
  {
    var i := Index(text, '\n');
    if i >= 0 then [DropCR(text[..i])] + Lines(text[i + 1..])
    else if text == "" then []
    else [DropCR(text)]
  }

  lemma FirstLine(line: string, rest: string)
    requires '\n' !in line
    ensures Lines(line + "\n" + rest) == [DropCR(line)] + Lines(rest)
  {
    var text := line + "\n" + rest;
    assert forall j :: 0 <= j < |line| ==> text[j] == line[j];
    assert text[|line|] == '\n' && text[..|line|] == line && text[|line| + 1..] == rest;
  }

  // ---------------------------------------------------------------------
  // Parse
  // ---------------------------------------------------------------------

  function Unquote(v: string): string {
    if |v| >= 2 && ((v[0] == '"' && v[|v| - 1] == '"') || (v[0] == '\'' && v[|v| - 1] == '\'')) then v[1..|v| - 1] else v
  }

  /** What one line adds to the file. */
  function ParseLine(raw: string): EnvFile {
    var line := Trim(raw);
    if line == "" then EnvFile([], [])
    else if line[0] == '#' then EnvFile([], [line])
    else
      var idx := Index(line, '=');
      if idx < 0 then EnvFile([], [])
      else EnvFile([Variable(Trim(line[..idx]), Unquote(Trim(line[idx + 1..])))], [])
  }

  function Add(a: EnvFile, b: EnvFile): EnvFile {
    EnvFile(a.variables + b.variables, a.comments + b.comments)
  }

  function ParseLines(lines: seq<string>): EnvFile {
    if lines == [] then EnvFile([], []) else Add(ParseLine(lines[0]), ParseLines(lines[1..]))
  }

  method Parse(text: string) returns (ef: EnvFile)
    ensures ef == ParseLines(Lines(text))
  {
    var lines := Lines(text);
    ef := EnvFile([], []);
    for i := 0 to |lines|
      invariant Add(ef, ParseLines(lines[i..])) == ParseLines(lines)
    {
      assert lines[i..][0] == lines[i] && lines[i..][1..] == lines[i + 1..];
      AddAssociates(ef, ParseLine(lines[i]), ParseLines(lines[i + 1..]));
      var line := Trim(lines[i]);
      if line == "" {
        AddNothing(ef);
        continue;
      }
      if line[0] == '#' {
        ef := EnvFile(ef.variables, ef.comments + [line]);
        continue;
      }
      var idx := Index(line, '=');
      if idx < 0 {
        AddNothing(ef);
        continue;
      }
      var key := Trim(line[..idx]);
      var value := Unquote(Trim(line[idx + 1..]));
      ef := EnvFile(ef.variables + [Variable(key, value)], ef.comments);
    }
    AddNothing(ef);
  }

  lemma AddNothing(a: EnvFile)
    ensures Add(a, EnvFile([], [])) == a && Add(EnvFile([], []), a) == a
  {
    assert a.variables + [] == a.variables && a.comments + [] == a.comments;
  }

  lemma AddAssociates(a: EnvFile, b: EnvFile, c: EnvFile)
    ensures Add(Add(a, b), c) == Add(a, Add(b, c))
    ensures b.variables == [] ==> Add(a, b).variables == a.variables
    ensures b.comments == [] ==> Add(a, b).comments == a.comments
  {
  }

  // ---------------------------------------------------------------------
  // Write
  // ---------------------------------------------------------------------

  /** needsQuoteRe: whitespace, quotes, backslashes and shell-special characters. */
  predicate NeedsQuote(v: string) {
    exists i :: 0 <= i < |v| && v[i] in {' ', '\t', '\n', '\U{C}', '\r', '"', '\'', '\\', '$', '`', '#'}
  }

  function QuoteIfNeeded(v: string): string {
    if v == "" || !NeedsQuote(v) then v
    else "\"" + Replace(Replace(v, '\\', "\\\\"), '"', "\\\"") + "\""
  }

  function Entry(v: Variable): string {
    v.key + "=" + QuoteIfNeeded(v.value)
  }

  function Unlines(lines: seq<string>): string {
    if lines == [] then "" else lines[0] + "\n" + Unlines(lines[1..])
  }

  function Entries(vars: seq<Variable>): (r: seq<string>)
    ensures |r| == |vars|
  {
    seq(|vars|, i requires 0 <= i < |vars| => Entry(vars[i]))
  }

  lemma {:induction false} UnlinesAppend(a: seq<string>, line: string)
    ensures Unlines(a + [line]) == Unlines(a) + line + "\n"
  {
    if a == [] {
      assert [line][1..] == [];
    } else {
      assert (a + [line])[0] == a[0] && (a + [line])[1..] == a[1..] + [line];
      UnlinesAppend(a[1..], line);
      assert a[0] + "\n" + (Unlines(a[1..]) + line + "\n") == (a[0] + "\n" + Unlines(a[1..])) + line + "\n";
    }
  }

  method Write(variables: seq<Variable>, comments: seq<string>) returns (text: string)
    ensures text == Unlines(comments + Entries(variables))
  {
    text := "";
    for i := 0 to |comments|
      invariant text == Unlines(comments[..i])
    {
      assert comments[..i + 1] == comments[..i] + [comments[i]];
      UnlinesAppend(comments[..i], comments[i]);
      text := text + comments[i];
      text := text + "\n";
    }
    var entries := Entries(variables);
    assert comments[..|comments|] == comments && comments + entries[..0] == comments;
    for i := 0 to |variables|
      invariant text == Unlines(comments + entries[..i])
    {
      assert comments + entries[..i + 1] == comments + entries[..i] + [entries[i]];
      UnlinesAppend(comments + entries[..i], entries[i]);
      ghost var before := text;
      text := text + variables[i].key;
      text := text + "=";
      text := text + QuoteIfNeeded(variables[i].value);
      assert text == before + entries[i];
      text := text + "\n";
    }
    assert entries[..|entries|] == entries;
  }

  // ---------------------------------------------------------------------
  // The round trip
  // ---------------------------------------------------------------------

  /** The API's rule for keys. */
  predicate ValidKey(k: string) {
    && k != ""
    && forall i :: 0 <= i < |k| ==>
         'A' <= k[i] <= 'Z' || 'a' <= k[i] <= 'z' || k[i] == '_' || (i > 0 && '0' <= k[i] <= '9')
  }

  predicate Printable(s: string) {
    forall c :: c in s ==> ' ' <= c <= '~'
  }

  /** A comment as Parse delivers it. */
  predicate ParsedComment(c: string) {
    c != "" && c[0] == '#' && Trimmed(c) && '\n' !in c
  }

  predicate Writable(variables: seq<Variable>, comments: seq<string>) {
    && (forall i :: 0 <= i < |variables| ==> ValidKey(variables[i].key) && Printable(variables[i].value))
    && forall i :: 0 <= i < |comments| ==> ParsedComment(comments[i])
  }

  /** A value after being written and read back. */
  function Reread(v: string): string {
    if v == "" || !NeedsQuote(v) then v else Replace(Replace(v, '\\', "\\\\"), '"', "\\\"")
  }

  /** A value survives exactly when it holds neither a double quote nor a backslash. */
  lemma RereadIsValue(v: string)
    ensures Reread(v) == v <==> '"' !in v && '\\' !in v
  {
    var once := Replace(v, '\\', "\\\\");
    ReplaceGrows(v, '\\', "\\\\");
    ReplaceGrows(once, '"', "\\\"");
    ReplaceKeeps(v, '\\', "\\\\");
  }

  /** Both quoted and unquoted, a written value is printable, trimmed, and unquotes to `Reread`. */
  lemma ValueReadsBack(v: string)
    requires Printable(v)
    ensures Trimmed(QuoteIfNeeded(v)) && Printable(QuoteIfNeeded(v)) && Unquote(QuoteIfNeeded(v)) == Reread(v)
  {
    var once := Replace(v, '\\', "\\\\");
    ReplaceKeeps(v, '\\', "\\\\");
    ReplaceKeeps(once, '"', "\\\"");
    if v != "" && !NeedsQuote(v) {
      assert v[0] in v && v[|v| - 1] in v;
    }
  }

  lemma EntryReadsBack(v: Variable)
    requires ValidKey(v.key) && Printable(v.value)
    ensures OneLine(Entry(v))
    ensures ParseLine(Entry(v)) == EnvFile([Variable(v.key, Reread(v.value))], [])
  {
    hide QuoteIfNeeded, Unquote, Reread;
    var value := QuoteIfNeeded(v.value);
    ValueReadsBack(v.value);
    PairIsTrimmed(v.key, value);
    PairParses(v.key, value);
  }

  /** A line that bufio.Scanner delivers unchanged. */
  predicate OneLine(s: string) {
    '\n' !in s && DropCR(s) == s
  }

  lemma PairIsTrimmed(key: string, value: string)
    requires ValidKey(key) && Printable(value) && Trimmed(value)
    ensures var line := key + "=" + value; Trimmed(line) && OneLine(line) && Trimmed(key) && line[0] != '#'
  {
  }

  lemma PairParses(key: string, value: string)
    requires ValidKey(key) && Trimmed(key) && Trimmed(value)
    requires var line := key + "=" + value; Trimmed(line) && line[0] != '#'
    ensures ParseLine(key + "=" + value) == EnvFile([Variable(key, Unquote(value))], [])
  {
    hide ValidKey, Unquote, Trimmed, Trim;
    var line := key + "=" + value;
    KeyHasNoEquals(key, value);
    TrimTrimmed(line);
    TrimTrimmed(key);
    TrimTrimmed(value);
    IndexAt(line, |key|);
    assert line[..|key|] == key && line[|key| + 1..] == value;
  }

  lemma KeyHasNoEquals(key: string, value: string)
    requires ValidKey(key)
    ensures forall i :: 0 <= i < |key| ==> (key + "=" + value)[i] != '='
  {
  }

  lemma IndexAt(line: string, k: nat)
    requires k < |line| && line[k] == '=' && forall i :: 0 <= i < k ==> line[i] != '='
    ensures Index(line, '=') == k
  {
  }

  /** Lines written one by one are delivered as they were. */
  lemma {:induction false} LinesReadBack(lines: seq<string>)
    requires forall i :: 0 <= i < |lines| ==> OneLine(lines[i])
    ensures Lines(Unlines(lines)) == lines
  {
    hide Lines, DropCR;
    if lines == [] {
      NoLines();
    } else {
      FirstLine(lines[0], Unlines(lines[1..]));
      LinesReadBack(lines[1..]);
      assert [lines[0]] + lines[1..] == lines;
    }
  }

  lemma NoLines()
    ensures Lines("") == []
  {
  }

  lemma {:induction false} ParseConcat(a: seq<string>, b: seq<string>)
    ensures ParseLines(a + b) == Add(ParseLines(a), ParseLines(b))
  {
    hide ParseLine;
    if a == [] {
      assert a + b == b;
      AddNothing(ParseLines(b));
    } else {
      ParseConcat(a[1..], b);
      assert (a + b)[0] == a[0] && (a + b)[1..] == a[1..] + b;
      AddAssociates(ParseLine(a[0]), ParseLines(a[1..]), ParseLines(b));
    }
  }

  lemma FirstParsed(line: string, lines: seq<string>)
    ensures ParseLines([line] + lines) == Add(ParseLine(line), ParseLines(lines))
  {
    assert ([line] + lines)[1..] == lines;
  }

  lemma {:induction false} CommentsParse(comments: seq<string>)
    requires forall i :: 0 <= i < |comments| ==> ParsedComment(comments[i])
    ensures ParseLines(comments) == EnvFile([], comments)
  {
    if comments != [] {
      CommentsParse(comments[1..]);
      TrimTrimmed(comments[0]);
      assert [comments[0]] + comments[1..] == comments;
    }
  }

  /** The variables as they are read back. */
  function RereadAll(variables: seq<Variable>): (r: seq<Variable>)
    ensures |r| == |variables|
  {
    seq(|variables|, i requires 0 <= i < |variables| => Variable(variables[i].key, Reread(variables[i].value)))
  }

  lemma RereadAllCons(v: Variable, rest: seq<Variable>)
    ensures Entries([v] + rest) == [Entry(v)] + Entries(rest)
    ensures RereadAll([v] + rest) == [Variable(v.key, Reread(v.value))] + RereadAll(rest)
  {
    hide Entry, Reread;
  }

  lemma {:induction false} EntriesParse(variables: seq<Variable>)
    requires forall i :: 0 <= i < |variables| ==> ValidKey(variables[i].key) && Printable(variables[i].value)
    ensures ParseLines(Entries(variables)) == EnvFile(RereadAll(variables), [])
  {
    if variables != [] {
      hide ParseLine, ParseLines, Entry, Entries, Reread, RereadAll, ValidKey, Printable, OneLine;
      var v, rest := variables[0], variables[1..];
      EntryReadsBack(v);
      EntriesParse(rest);
      assert variables == [v] + rest;
      RereadAllCons(v, rest);
      FirstParsed(Entry(v), Entries(rest));
      var none: seq<string> := [];
      assert none + none == none;
    }
  }

  /**
   Reading what was written gives the same keys in order, the same comments,
   and each value unchanged exactly when it holds neither a double quote nor a
   backslash.
   */
  lemma RoundTrip(variables: seq<Variable>, comments: seq<string>)
    requires Writable(variables, comments)
    ensures var ef := ParseLines(Lines(Unlines(comments + Entries(variables))));
            && ef.comments == comments && |ef.variables| == |variables|
            && forall i :: 0 <= i < |variables| ==>
                 && ef.variables[i].key == variables[i].key
                 && (ef.variables[i].value == variables[i].value <==>
                       '"' !in variables[i].value && '\\' !in variables[i].value)
  {
    hide ParseLines, Lines, Unlines, Entry, Reread;
    var entries := Entries(variables);
    forall i | 0 <= i < |comments + entries|
      ensures OneLine((comments + entries)[i])
    {
      if i >= |comments| {
        EntryReadsBack(variables[i - |comments|]);
      }
    }
    LinesReadBack(comments + entries);
    ParseConcat(comments, entries);
    CommentsParse(comments);
    EntriesParse(variables);
    assert comments + [] == comments && [] + RereadAll(variables) == RereadAll(variables);
    forall i | 0 <= i < |variables|
      ensures Reread(variables[i].value) == variables[i].value <==> '"' !in variables[i].value && '\\' !in variables[i].value
    {
      RereadIsValue(variables[i].value);
    }
  }

  // ---------------------------------------------------------------------
  // Files written by hand
  // ---------------------------------------------------------------------

  predicate Blank(s: string) {
    forall i :: 0 <= i < |s| ==> IsSpace(s[i])
  }

  lemma {:induction false} TrimLeftDrops(blanks: string, s: string)
    requires Blank(blanks) && (s != "" ==> !IsSpace(s[0]))
    ensures TrimLeft(blanks + s) == s
    decreases |blanks|
  {
    if blanks == "" {
      assert blanks + s == s;
    } else {
      assert (blanks + s)[1..] == blanks[1..] + s;
      TrimLeftDrops(blanks[1..], s);
    }
  }

  lemma {:induction false} TrimRightDrops(s: string, blanks: string)
    requires Blank(blanks) && (s != "" ==> !IsSpace(s[|s| - 1]))
    ensures TrimRight(s + blanks) == s
    decreases |blanks|
  {
    if blanks == "" {
      assert s + blanks == s;
    } else {
      var n := |blanks| - 1;
      assert (s + blanks)[..|s + blanks| - 1] == s + blanks[..n];
      TrimRightDrops(s, blanks[..n]);
    }
  }

  /** TrimSpace removes the blanks on both sides and no more. */
  lemma TrimDrops(before: string, s: string, after: string)
    requires Blank(before) && Blank(after) && Trimmed(s)
    ensures Trim(before + s + after) == s
  {
    hide Trimmed;
    if s == "" {
      assert before + s + after == (before + after) + "";
      TrimLeftDrops(before + after, "");
    } else {
      assert before + s + after == before + (s + after);
      FirstAndLast(s);
      TrimLeftDrops(before, s + after);
      TrimRightDrops(s, after);
    }
  }

  lemma FirstAndLast(s: string)
    requires s != "" && Trimmed(s)
    ensures !IsSpace(s[0]) && !IsSpace(s[|s| - 1])
  {
  }

  /** A text between double quotes, or between single quotes. */
  predicate QuotedAs(text: string, inner: string) {
    text == "\"" + inner + "\"" || text == "'" + inner + "'"
  }

  /**
   A line that assigns: blanks may stand before and after the key and the value.
   One pair of double or of single quotes around the value is removed; any other
   value is taken as it stands, and so are further equals signs, quotes inside
   it, and a `#` after it. Nothing is unescaped.
   */
  lemma AssignmentParses(indent: string, key: string, before: string, after: string, text: string, trail: string)
    requires Blank(indent) && Blank(before) && Blank(after) && Blank(trail)
    requires key != "" && Trimmed(key) && key[0] != '#' && '=' !in key && Trimmed(text)
    ensures var ef := ParseLine(indent + (key + before + "=" + after + text) + trail);
            && ef.comments == [] && |ef.variables| == 1 && ef.variables[0].key == key
            && var value := ef.variables[0].value;
               && (forall inner :: QuotedAs(text, inner) ==> value == inner)
               && ((forall inner :: !QuotedAs(text, inner)) ==> value == text)
  {
    hide Trim, Unquote, Blank, Trimmed, IsSpace;
    var left := key + before;
    // What is left of the line and of the blanks after the equals sign once the line is trimmed.
    var gap := if text == "" then "" else after;
    var line := left + "=" + gap + text;
    var rest := before + "=" + gap + text;
    assert line == key + rest;
    EqualsIsNoSpace();
    if text == "" {
      assert indent + (key + before + "=" + after + text) + trail == indent + line + (after + trail);
      assert rest[|rest| - 1] == '=';
      EndsTrimmed(key, rest);
      BlankTwice(after, trail);
      TrimDrops(indent, line, after + trail);
    } else {
      assert key + before + "=" + after + text == line;
      FirstAndLast(text);
      assert rest[|rest| - 1] == text[|text| - 1];
      EndsTrimmed(key, rest);
      TrimDrops(indent, line, trail);
    }
    NoEqualsBefore(key, before);
    IndexAt(line, |left|);
    assert line[..|left|] == left && line[|left| + 1..] == gap + text;
    assert left == "" + key + before && gap + text == gap + text + "";
    NothingIsBlank();
    TrimDrops("", key, before);
    TrimDrops(gap, text, "");
    UnquoteIs(text);
    assert line[0] == key[0];
  }

  lemma EqualsIsNoSpace()
    ensures !IsSpace('=')
  {
  }

  lemma NothingIsBlank()
    ensures Blank("")
  {
  }

  lemma BlankTwice(a: string, b: string)
    requires Blank(a) && Blank(b)
    ensures Blank(a + b)
  {
  }

  lemma EndsTrimmed(key: string, rest: string)
    requires key != "" && Trimmed(key) && rest != "" && !IsSpace(rest[|rest| - 1])
    ensures Trimmed(key + rest)
  {
  }

  lemma NoEqualsBefore(key: string, before: string)
    requires '=' !in key && Blank(before)
    ensures forall i :: 0 <= i < |key + before| ==> (key + before)[i] != '='
  {
  }

  lemma UnquoteIs(text: string)
    ensures forall inner :: QuotedAs(text, inner) ==> Unquote(text) == inner
    ensures (forall inner :: !QuotedAs(text, inner)) ==> Unquote(text) == text
  {
    if |text| >= 2 && text[0] == text[|text| - 1] {
      assert text == [text[0]] + text[1..|text| - 1] + [text[0]];
      assert text[0] in {'"', '\''} ==> QuotedAs(text, text[1..|text| - 1]);
    }
  }

  /** A line without an equals sign adds nothing unless it is a comment; a comment is kept without the blanks around it. */
  lemma OtherLinesParse(indent: string, text: string, trail: string)
    requires Blank(indent) && Blank(trail) && Trimmed(text)
    ensures text != "" && text[0] == '#' ==> ParseLine(indent + text + trail) == EnvFile([], [text])
    ensures text == "" || (text[0] != '#' && '=' !in text) ==> ParseLine(indent + text + trail) == EnvFile([], [])
  {
    hide Trim;
    TrimDrops(indent, text, trail);
  }
}
