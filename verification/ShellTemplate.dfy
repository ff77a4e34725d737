/**
 Placeholders in pipeline fields and the quoting of values spliced into shell
 commands: orchestrator/core/variables.go.
 */
module ShellTemplates {
  import opened Common

  type Vars = map<string, string>

  // ---------------------------------------------------------------------
  // Placeholders
  // ---------------------------------------------------------------------

  predicate KeyChar(c: char) {
    'a' <= c <= 'z' || '0' <= c <= '9' || c == '-'
  }

  function KeyRun(s: string): (n: nat)
    ensures n <= |s| && (forall i :: 0 <= i < n ==> KeyChar(s[i])) && (n < |s| ==> !KeyChar(s[n]))
  {
    if s == "" || !KeyChar(s[0]) then 0 else 1 + KeyRun(s[1..])
  }

  /** The key of the placeholder `{{key}}` that `s` starts with. */
  function PlaceholderKey(s: string): (key: Option<string>)
    ensures key.Some? ==>
              |key.value| > 0 && |s| >= |key.value| + 4 && s[..|key.value| + 4] == "{{" + key.value + "}}"
              && forall i :: 0 <= i < |key.value| ==> KeyChar(key.value[i])
  {
    if |s| >= 2 && s[0] == '{' && s[1] == '{' then
      var n := KeyRun(s[2..]);
      if n > 0 && |s| >= n + 4 && s[n + 2] == '}' && s[n + 3] == '}' then
        assert s[..n + 4] == "{{" + s[2..n + 2] + "}}";
        Some(s[2..n + 2])
      else None
    else None
  }

  /** A template cut into literal characters and placeholders, leftmost first. */
  datatype Piece = Literal(c: char) | Placeholder(key: string)

  function Pieces(s: string): seq<Piece> {
    if s == "" then []
    else
      var key := PlaceholderKey(s);
      if key.Some? then [Placeholder(key.value)] + Pieces(s[|key.value| + 4..]) else [Literal(s[0])] + Pieces(s[1..])
  }

  function PieceText(p: Piece): string {
    match p
    case Literal(c) => [c]
    case Placeholder(key) => "{{" + key + "}}"
  }

  /** ReplaceAllStringFunc with a substitution `f` for the values of known keys. */
  function Resolve(ps: seq<Piece>, vars: Vars, f: string -> string): string {
    if ps == [] then ""
    else
      (if ps[0].Placeholder? && ps[0].key in vars then f(vars[ps[0].key]) else PieceText(ps[0]))
      + Resolve(ps[1..], vars, f)
  }

  function ResolveString(s: string, vars: Vars): string {
    Resolve(Pieces(s), vars, v => v)
  }

  function ResolveCommand(s: string, vars: Vars): string {
    Resolve(Pieces(s), vars, ShellQuote)
  }

  /** Cutting a template into pieces loses nothing. */
  lemma {:induction false} PiecesJoin(s: string)
    ensures Resolve(Pieces(s), map[], ShellQuote) == s
    decreases |s|
  {
    hide PlaceholderKey, Resolve, KeyRun, ShellQuote;
    if s == "" {
      ResolveNone(map[], ShellQuote);
    } else {
      var key := PlaceholderKey(s);
      if key.Some? {
        var n := |key.value| + 4;
        PiecesJoin(s[n..]);
        ResolveFirst(Placeholder(key.value), Pieces(s[n..]), map[], ShellQuote);
        assert s == s[..n] + s[n..];
      } else {
        PiecesJoin(s[1..]);
        ResolveFirst(Literal(s[0]), Pieces(s[1..]), map[], ShellQuote);
        assert s == [s[0]] + s[1..];
      }
    }
  }

  lemma ResolveNone(vars: Vars, f: string -> string)
    ensures Resolve([], vars, f) == ""
  {
  }

  lemma ResolveFirst(p: Piece, ps: seq<Piece>, vars: Vars, f: string -> string)
    ensures Resolve([p] + ps, vars, f) ==
            (if p.Placeholder? && p.key in vars then f(vars[p.key]) else PieceText(p)) + Resolve(ps, vars, f)
  {
    assert ([p] + ps)[1..] == ps;
  }

  /** Where a key first occurs, or past the end. */
  function FirstOccurrence(ps: seq<Piece>, key: string): (i: nat)
    ensures i <= |ps| && (i < |ps| ==> ps[i] == Placeholder(key))
    ensures forall j :: 0 <= j < i ==> ps[j] != Placeholder(key)
  {
    if ps == [] || ps[0] == Placeholder(key) then 0 else 1 + FirstOccurrence(ps[1..], key)
  }

  /** The distinct placeholder keys of `s`, in the order of their first occurrence. */
  method FindPlaceholders(s: string) returns (keys: seq<string>)
    ensures Distinct(keys)
    ensures forall k :: k in keys <==> Placeholder(k) in Pieces(s)
    ensures forall i, j :: 0 <= i < j < |keys| ==>
              FirstOccurrence(Pieces(s), keys[i]) < FirstOccurrence(Pieces(s), keys[j])
  {
    hide Pieces, FirstOccurrence;
    var matches := Pieces(s);
    var seen: set<string> := {};
    keys := [];
    for i := 0 to |matches|
      invariant seen == set k | k in keys
      invariant forall k :: k in keys <==> FirstOccurrence(matches, k) < i
      invariant forall m, n :: 0 <= m < n < |keys| ==> FirstOccurrence(matches, keys[m]) < FirstOccurrence(matches, keys[n])
    {
      if matches[i].Placeholder? {
        var key := matches[i].key;
        if key !in seen {
          seen := seen + {key};
          keys := keys + [key];
        }
      }
    }
    assert forall k :: Placeholder(k) in matches <==> FirstOccurrence(matches, k) < |matches|;
  }

  // ---------------------------------------------------------------------
  // Quoting
  // ---------------------------------------------------------------------

  /** strings.ReplaceAll(s, "'", `'\''`) */
  function EscapeQuotes(s: string): string {
    if s == "" then "" else (if s[0] == '\'' then "'\\''" else [s[0]]) + EscapeQuotes(s[1..])
  }

  function ShellQuote(s: string): string {
    "'" + EscapeQuotes(s) + "'"
  }

  /** A character of a word after quote removal, and whether it was quoted. */
  datatype Char = Char(c: char, quoted: bool)

  /** Where in the shell's quoting a character stands; `Nested` is where this fragment says nothing. */
  datatype Quoting =
    | Unquoted
    | Escaped          // after an unquoted backslash
    | Single
    | Double
    | Dollar           // after a dollar sign in double quotes
    | DoubleEscaped    // after a backslash in double quotes
    | Nested

  /**
   Quoting of the POSIX.1-2017 Shell Command Language: backslashes (section
   2.2.1), single quotes (2.2.2) and double quotes (2.2.3). A substitution in
   braces, parentheses or backquotes inside double quotes has a quoting of its
   own, which is not described here.
   */
  function After(q: Quoting, c: char): Quoting {
    match q
    case Unquoted => if c == '\'' then Single else if c == '"' then Double else if c == '\\' then Escaped else Unquoted
    case Escaped => Unquoted
    case Single => if c == '\'' then Unquoted else Single
    case DoubleEscaped => Double
    case Nested => Nested
    case _ =>
      if c == '"' then Unquoted
      else if c == '\\' then DoubleEscaped
      else if c == '`' || (q == Dollar && (c == '(' || c == '{')) then Nested
      else if c == '$' then Dollar
      else Double
  }

  /** What quote removal (2.6.7) leaves of a character, and of a backslash kept before it. */
  function Kept(q: Quoting, c: char): seq<Char> {
    match q
    case Unquoted => if c == '\'' || c == '"' || c == '\\' then [] else [Char(c, false)]
    case Escaped => if c == '\n' then [] else [Char(c, true)]
    case Single => if c == '\'' then [] else [Char(c, true)]
    case DoubleEscaped =>
      if c == '\n' then []
      else if c == '$' || c == '`' || c == '"' || c == '\\' then [Char(c, true)]
      else [Char('\\', true), Char(c, true)]
    case Nested => []
    case _ => if c == '"' || c == '\\' then [] else [Char(c, c != '$' && c != '`')]
  }

  /** Quote removal from the given quoting on; None when the text ends inside of quotes. */
  function RemoveFrom(q: Quoting, s: string): Option<seq<Char>>
    decreases |s|
  {
    if s == "" then (if q == Unquoted then Some([]) else None)
    else Prepend(Kept(q, s[0]), RemoveFrom(After(q, s[0]), s[1..]))
  }

  function Remove(s: string): Option<seq<Char>> {
    RemoveFrom(Unquoted, s)
  }

  function Prepend(a: seq<Char>, b: Option<seq<Char>>): Option<seq<Char>> {
    if b.None? then None else Some(a + b.value)
  }

  function Marked(s: string, quoted: bool): (r: seq<Char>)
    ensures |r| == |s|
  {
    seq(|s|, i requires 0 <= i < |s| => Char(s[i], quoted))
  }

  function Text(cs: seq<Char>): (r: string)
    ensures |r| == |cs|
  {
    seq(|cs|, i requires 0 <= i < |cs| => cs[i].c)
  }

  lemma PrependTwice(a: seq<Char>, b: seq<Char>, c: Option<seq<Char>>)
    ensures Prepend(a, Prepend(b, c)) == Prepend(a + b, c)
  {
    if c.Some? {
      assert a + (b + c.value) == (a + b) + c.value;
    }
  }

  /** Quote removal of one character after the other. */
  function AfterText(q: Quoting, s: string): Quoting
    decreases |s|
  {
    if s == "" then q else AfterText(After(q, s[0]), s[1..])
  }

  function KeptOf(q: Quoting, s: string): seq<Char>
    decreases |s|
  {
    if s == "" then [] else Kept(q, s[0]) + KeptOf(After(q, s[0]), s[1..])
  }

  lemma {:induction false} TextReadsBack(q: Quoting, s: string, rest: string)
    ensures RemoveFrom(q, s + rest) == Prepend(KeptOf(q, s), RemoveFrom(AfterText(q, s), rest))
    decreases |s|
  {
    hide After, Kept;
    if s == "" {
      assert s + rest == rest;
      NothingPrepended(RemoveFrom(q, rest));
    } else {
      assert (s + rest)[0] == s[0] && (s + rest)[1..] == s[1..] + rest;
      TextReadsBack(After(q, s[0]), s[1..], rest);
      PrependTwice(Kept(q, s[0]), KeptOf(After(q, s[0]), s[1..]), RemoveFrom(AfterText(q, s), rest));
    }
  }

  lemma NothingPrepended(b: Option<seq<Char>>)
    ensures Prepend([], b) == b
  {
    if b.Some? {
      assert [] + b.value == b.value;
    }
  }

  lemma {:induction false} TextConcat(q: Quoting, a: string, b: string)
    ensures AfterText(q, a + b) == AfterText(AfterText(q, a), b)
    ensures KeptOf(q, a + b) == KeptOf(q, a) + KeptOf(AfterText(q, a), b)
    decreases |a|
  {
    hide After, Kept;
    if a == "" {
      assert a + b == b;
    } else {
      assert (a + b)[0] == a[0] && (a + b)[1..] == a[1..] + b;
      TextConcat(After(q, a[0]), a[1..], b);
    }
  }

  /** The escaped single quote: close, backslash quote, reopen. */
  lemma QuoteReadsBack()
    ensures AfterText(Single, "'\\''") == Single && KeptOf(Single, "'\\''") == [Char('\'', true)]
  {
    assert "'\\''"[1..] == "\\''" && "\\''"[1..] == "''" && "''"[1..] == "'" && "'"[1..] == "";
    assert KeptOf(Single, "") == [] && KeptOf(Unquoted, "'") == [] && KeptOf(Escaped, "''") == [Char('\'', true)];
    assert KeptOf(Unquoted, "\\''") == [Char('\'', true)];
    assert AfterText(Unquoted, "'") == Single && AfterText(Escaped, "''") == Single && AfterText(Unquoted, "\\''") == Single;
  }

  lemma {:induction false} EscapedReadsBack(v: string)
    ensures AfterText(Single, EscapeQuotes(v)) == Single && KeptOf(Single, EscapeQuotes(v)) == Marked(v, true)
  {
    hide After, Kept;
    if v != "" {
      EscapedReadsBack(v[1..]);
      assert Marked(v, true) == [Char(v[0], true)] + Marked(v[1..], true);
      if v[0] == '\'' {
        TextConcat(Single, "'\\''", EscapeQuotes(v[1..]));
        QuoteReadsBack();
      } else {
        TextConcat(Single, [v[0]], EscapeQuotes(v[1..]));
        InsideSingle(v[0]);
      }
    }
  }

  lemma InsideSingle(c: char)
    requires c != '\''
    ensures AfterText(Single, [c]) == Single && KeptOf(Single, [c]) == [Char(c, true)]
  {
    assert [c][1..] == "";
  }

  /** shellQuote is undone by quote removal, and every character of the value is quoted. */
  lemma QuotedReadsBack(v: string, rest: string)
    ensures Remove(ShellQuote(v) + rest) == Prepend(Marked(v, true), Remove(rest))
  {
    QuotedText(v);
    TextReadsBack(Unquoted, ShellQuote(v), rest);
  }

  lemma QuotedText(v: string)
    ensures AfterText(Unquoted, ShellQuote(v)) == Unquoted && KeptOf(Unquoted, ShellQuote(v)) == Marked(v, true)
  {
    hide EscapeQuotes;
    EscapedReadsBack(v);
    TextConcat(Unquoted, "'" + EscapeQuotes(v), "'");
    TextConcat(Unquoted, "'", EscapeQuotes(v));
    OneQuote();
    assert Marked(v, true) + [] == Marked(v, true) && [] + Marked(v, true) == Marked(v, true);
  }

  lemma OneQuote()
    ensures AfterText(Unquoted, "'") == Single && AfterText(Single, "'") == Unquoted
    ensures KeptOf(Unquoted, "'") == [] && KeptOf(Single, "'") == []
  {
    assert "'"[1..] == "";
  }

  // ---------------------------------------------------------------------
  // Commands
  // ---------------------------------------------------------------------

  predicate Special(c: char) {
    c == '\'' || c == '"' || c == '\\'
  }

  predicate NoSpecial(s: string) {
    forall i :: 0 <= i < |s| ==> !Special(s[i])
  }

  predicate Known(p: Piece, keys: set<string>) {
    p.Placeholder? && p.key in keys
  }

  /** The template's own quoting after a piece; a value stands for ordinary text. */
  function AfterPiece(q: Quoting, p: Piece, keys: set<string>): Quoting {
    if !Known(p, keys) then AfterText(q, PieceText(p))
    else if q == Escaped then Unquoted
    else if q == Dollar || q == DoubleEscaped then Double
    else q
  }

  function AfterPieces(q: Quoting, ps: seq<Piece>, keys: set<string>): Quoting
    decreases |ps|
  {
    if ps == [] then q else AfterPieces(AfterPiece(q, ps[0], keys), ps[1..], keys)
  }

  /** The template's own quotes are complete, and this fragment covers them. */
  predicate Complete(s: string, keys: set<string>) {
    AfterPieces(Unquoted, Pieces(s), keys) == Unquoted
  }

  /** A placeholder of a known key stands inside the template's own quotes, or after its backslash. */
  predicate KnownInside(q: Quoting, ps: seq<Piece>, keys: set<string>)
    decreases |ps|
  {
    && ps != []
    && ((q != Unquoted && Known(ps[0], keys)) || KnownInside(AfterPiece(q, ps[0], keys), ps[1..], keys))
  }

  /** What a template should turn into: its quotes gone, its text quoted where it quotes it, every value quoted. */
  function Expected(q: Quoting, ps: seq<Piece>, vars: Vars): seq<Char>
    decreases |ps|
  {
    if ps == [] then [] else ExpectedPiece(q, ps[0], vars) + Expected(AfterPiece(q, ps[0], vars.Keys), ps[1..], vars)
  }

  function ExpectedPiece(q: Quoting, p: Piece, vars: Vars): seq<Char> {
    if !Known(p, vars.Keys) then KeptOf(q, PieceText(p))
    else (if q == DoubleEscaped then [Char('\\', true)] else []) + Marked(vars[p.key], true)
  }

  function ResolvedPiece(p: Piece, vars: Vars): string {
    if Known(p, vars.Keys) then ShellQuote(vars[p.key]) else PieceText(p)
  }

  /** A piece that is not a known placeholder, and a known one outside of quotes, read back as expected. */
  lemma PieceReadsBack(q: Quoting, p: Piece, vars: Vars, rest: string)
    requires Known(p, vars.Keys) ==> q == Unquoted
    ensures RemoveFrom(q, ResolvedPiece(p, vars) + rest) ==
            Prepend(ExpectedPiece(q, p, vars), RemoveFrom(AfterPiece(q, p, vars.Keys), rest))
  {
    hide RemoveFrom, ShellQuote;
    if Known(p, vars.Keys) {
      QuotedReadsBack(vars[p.key], rest);
      assert [] + Marked(vars[p.key], true) == Marked(vars[p.key], true);
    } else {
      TextReadsBack(q, PieceText(p), rest);
    }
  }

  lemma {:induction false} PiecesReadBack(q: Quoting, ps: seq<Piece>, vars: Vars)
    requires AfterPieces(q, ps, vars.Keys) == Unquoted && !KnownInside(q, ps, vars.Keys)
    ensures RemoveFrom(q, Resolve(ps, vars, ShellQuote)) == Some(Expected(q, ps, vars))
    decreases |ps|
  {
    hide ShellQuote, Resolve, PieceText, ExpectedPiece, AfterPiece;
    if ps == [] {
      ResolveNone(vars, ShellQuote);
    } else {
      var p, tail := ps[0], ps[1..];
      assert ps == [p] + tail;
      PiecesReadBack(AfterPiece(q, p, vars.Keys), tail, vars);
      ResolveFirst(p, tail, vars, ShellQuote);
      PieceReadsBack(q, p, vars, Resolve(tail, vars, ShellQuote));
    }
  }

  /** The value "x" inside the template's quotes, and what it should have been. */
  lemma InsideDiffers(q: Quoting, p: Piece, vars: Vars, rest: string, others: seq<Char>)
    requires q != Unquoted && Known(p, vars.Keys) && vars[p.key] == "x"
    ensures RemoveFrom(q, ResolvedPiece(p, vars) + rest) != Some(ExpectedPiece(q, p, vars) + others)
  {
    hide RemoveFrom;
    QuotedX();
    TextReadsBack(q, "'x'", rest);
    var got := KeptOf(q, "'x'");
    XInside(q);
    var tail := RemoveFrom(AfterText(q, "'x'"), rest);
    NestedIsNone(AfterText(q, "'x'"), rest);
    if tail.Some? {
      assert (got + tail.value)[0] == got[0];
      if q == DoubleEscaped {
        assert (got + tail.value)[1] == got[1] && (ExpectedPiece(q, p, vars) + others)[1] == Char('x', true);
      } else {
        assert (ExpectedPiece(q, p, vars) + others)[0] == Char('x', true);
      }
    }
  }

  lemma QuotedX()
    ensures ShellQuote("x") == "'x'"
  {
    assert EscapeQuotes("") == "" && "x"[1..] == "";
  }

  lemma XInside(q: Quoting)
    requires q != Unquoted
    ensures var got := KeptOf(q, "'x'");
            if q == Nested then AfterText(q, "'x'") == Nested
            else if q == DoubleEscaped then |got| > 1 && got[1] == Char('\'', true)
            else |got| > 0 && got[0] != Char('x', true)
  {
    assert "'x'"[1..] == "x'" && "x'"[1..] == "'" && "'"[1..] == "";
  }

  lemma {:induction false} NestedIsNone(q: Quoting, s: string)
    ensures q == Nested ==> RemoveFrom(q, s) == None
    decreases |s|
  {
    if s != "" {
      NestedIsNone(After(q, s[0]), s[1..]);
    }
  }

  lemma {:induction false} PiecesDiffer(q: Quoting, ps: seq<Piece>, vars: Vars)
    requires KnownInside(q, ps, vars.Keys) && forall k :: k in vars ==> vars[k] == "x"
    ensures RemoveFrom(q, Resolve(ps, vars, ShellQuote)) != Some(Expected(q, ps, vars))
    decreases |ps|
  {
    hide ShellQuote, Resolve, PieceText, ExpectedPiece, AfterPiece, RemoveFrom;
    var p, tail := ps[0], ps[1..];
    assert ps == [p] + tail;
    ResolveFirst(p, tail, vars, ShellQuote);
    var next := AfterPiece(q, p, vars.Keys);
    if q != Unquoted && Known(p, vars.Keys) {
      InsideDiffers(q, p, vars, Resolve(tail, vars, ShellQuote), Expected(next, tail, vars));
    } else {
      PiecesDiffer(next, tail, vars);
      PieceReadsBack(q, p, vars, Resolve(tail, vars, ShellQuote));
      PrependCancels(ExpectedPiece(q, p, vars), RemoveFrom(next, Resolve(tail, vars, ShellQuote)), Expected(next, tail, vars));
    }
  }

  lemma PrependCancels(a: seq<Char>, b: Option<seq<Char>>, c: seq<Char>)
    ensures Prepend(a, b) == Some(a + c) ==> b == Some(c)
  {
    if b.Some? {
      assert (a + b.value)[|a|..] == b.value && (a + c)[|a|..] == c;
    }
  }

  /**
   A template whose own quotes are complete: quote removal on the resolved
   command gives its text with every value quoted, for all values of the known
   keys, if and only if no known placeholder stands inside single or double
   quotes of the template or right after one of its backslashes.
   */
  lemma ValuesStayQuotedIffOutside(s: string, keys: set<string>)
    requires Complete(s, keys)
    ensures (forall vars: Vars :: vars.Keys == keys ==>
               Remove(ResolveCommand(s, vars)) == Some(Expected(Unquoted, Pieces(s), vars)))
            <==> !KnownInside(Unquoted, Pieces(s), keys)
  {
    hide RemoveFrom, Pieces, Resolve, Expected, KnownInside, AfterPieces;
    if KnownInside(Unquoted, Pieces(s), keys) {
      var vars: Vars := map k | k in keys :: "x";
      assert vars.Keys == keys;
      PiecesDiffer(Unquoted, Pieces(s), vars);
    } else {
      forall vars: Vars | vars.Keys == keys
        ensures Remove(ResolveCommand(s, vars)) == Some(Expected(Unquoted, Pieces(s), vars))
      {
        PiecesReadBack(Unquoted, Pieces(s), vars);
      }
    }
  }

  // ---------------------------------------------------------------------
  // Templates without quotes
  // ---------------------------------------------------------------------

  /** Text without quotes and backslashes stays as it is. */
  lemma {:induction false} OrdinaryText(s: string)
    requires NoSpecial(s)
    ensures AfterText(Unquoted, s) == Unquoted && KeptOf(Unquoted, s) == Marked(s, false)
  {
    if s != "" {
      OrdinaryText(s[1..]);
      assert Marked(s, false) == [Char(s[0], false)] + Marked(s[1..], false);
    }
  }

  lemma {:induction false} OrdinaryPieces(s: string)
    requires NoSpecial(s)
    ensures forall p :: p in Pieces(s) ==> NoSpecial(PieceText(p))
    decreases |s|
  {
    if s != "" {
      var key := PlaceholderKey(s);
      if key.Some? {
        var n := |key.value| + 4;
        OrdinaryPieces(s[n..]);
        assert Pieces(s) == [Placeholder(key.value)] + Pieces(s[n..]);
        assert PieceText(Placeholder(key.value)) == s[..n];
      } else {
        OrdinaryPieces(s[1..]);
        assert Pieces(s) == [Literal(s[0])] + Pieces(s[1..]);
      }
    }
  }

  lemma {:induction false} OrdinaryTemplate(ps: seq<Piece>, vars: Vars)
    requires forall p :: p in ps ==> NoSpecial(PieceText(p))
    ensures AfterPieces(Unquoted, ps, vars.Keys) == Unquoted && !KnownInside(Unquoted, ps, vars.Keys)
    ensures Text(Expected(Unquoted, ps, vars)) == Resolve(ps, vars, v => v)
  {
    hide NoSpecial, PieceText, Resolve, AfterText, KeptOf, Marked, Text;
    if ps == [] {
      ResolveNone(vars, v => v);
      MarkedText("", false);
    } else {
      var p := ps[0];
      assert p in ps && ps == [p] + ps[1..];
      OrdinaryText(PieceText(p));
      OrdinaryTemplate(ps[1..], vars);
      ResolveFirst(p, ps[1..], vars, v => v);
      TextsJoin(ExpectedPiece(Unquoted, p, vars), Expected(Unquoted, ps[1..], vars));
      if Known(p, vars.Keys) {
        assert [] + Marked(vars[p.key], true) == Marked(vars[p.key], true);
        MarkedText(vars[p.key], true);
      } else {
        MarkedText(PieceText(p), false);
      }
    }
  }

  lemma MarkedText(s: string, quoted: bool)
    ensures Text(Marked(s, quoted)) == s
  {
  }

  lemma TextsJoin(a: seq<Char>, b: seq<Char>)
    ensures Text(a + b) == Text(a) + Text(b)
  {
  }

  /**
   For a template without quotes and backslashes, quote removal on the
   resolved command gives exactly the plain substitution, and every character
   of every value is in quoted position: no value can end its word, start
   another command or be expanded.
   */
  lemma CommandMeansSubstitution(s: string, vars: Vars)
    requires NoSpecial(s)
    ensures Remove(ResolveCommand(s, vars)) == Some(Expected(Unquoted, Pieces(s), vars))
    ensures Text(Expected(Unquoted, Pieces(s), vars)) == ResolveString(s, vars)
  {
    hide RemoveFrom, Pieces, Resolve, Expected, KnownInside, NoSpecial, AfterPieces;
    OrdinaryPieces(s);
    OrdinaryTemplate(Pieces(s), vars);
    PiecesReadBack(Unquoted, Pieces(s), vars);
  }

  /** A template that puts its own single quotes around a placeholder: the value ends up unquoted. */
  lemma QuotedPlaceholderIsExposed(key: string, vars: Vars)
    requires key in vars && NoSpecial(vars[key]) && key != "" && forall i :: 0 <= i < |key| ==> KeyChar(key[i])
    ensures Remove(ResolveCommand("'" + ("{{" + key + "}}" + "'"), vars)) == Some(Marked(vars[key], false))
  {
    hide Pieces, Resolve, RemoveFrom, Marked, NoSpecial, ShellQuote, AfterText, KeptOf;
    var v, quote, hole := vars[key], Literal('\''), Placeholder(key);
    QuotedPieces(key);
    ResolveNone(vars, ShellQuote);
    ResolveFirst(quote, [], vars, ShellQuote);
    ResolveFirst(hole, [quote], vars, ShellQuote);
    ResolveFirst(quote, [hole, quote], vars, ShellQuote);
    PiecesOfThree(quote, hole);
    TwiceQuoted(v);
    assert "'" + "" == "'";
  }

  lemma TwiceQuoted(v: string)
    requires NoSpecial(v)
    ensures Remove("'" + (ShellQuote(v) + "'")) == Some(Marked(v, false))
  {
    hide RemoveFrom, NoSpecial, Marked, EscapeQuotes;
    NothingToEscape(v);
    OrdinaryText(v);
    OneQuote();
    var end := "'" + ("'" + "");
    assert "'" + (ShellQuote(v) + "'") == "'" + ("'" + (v + end));
    QuoteDropped(Unquoted, Single, "'" + (v + end));
    QuoteDropped(Single, Unquoted, v + end);
    TextReadsBack(Unquoted, v, end);
    QuoteDropped(Unquoted, Single, "'" + "");
    QuoteDropped(Single, Unquoted, "");
    NothingLeft();
    assert Marked(v, false) + [] == Marked(v, false);
  }

  lemma QuoteDropped(q: Quoting, next: Quoting, rest: string)
    requires AfterText(q, "'") == next && KeptOf(q, "'") == []
    ensures RemoveFrom(q, "'" + rest) == RemoveFrom(next, rest)
  {
    TextReadsBack(q, "'", rest);
    NothingPrepended(RemoveFrom(next, rest));
  }

  lemma NothingLeft()
    ensures Remove("") == Some([])
  {
  }

  lemma {:induction false} NothingToEscape(v: string)
    requires NoSpecial(v)
    ensures EscapeQuotes(v) == v
  {
    if v != "" {
      NothingToEscape(v[1..]);
    }
  }

  lemma PiecesOfThree(a: Piece, b: Piece)
    ensures [a] + [] == [a] && [b] + [a] == [b, a] && [a] + [b, a] == [a, b, a]
  {
  }

  lemma QuotedPieces(key: string)
    requires key != "" && forall i :: 0 <= i < |key| ==> KeyChar(key[i])
    ensures Pieces("'" + ("{{" + key + "}}" + "'")) == [Literal('\''), Placeholder(key), Literal('\'')]
  {
    hide Pieces;
    var tail := "{{" + key + "}}" + "'";
    LastQuote();
    PlaceholderPiece(key, "'");
    QuotePiece(tail);
    PiecesOfThree(Literal('\''), Placeholder(key));
  }

  lemma LastQuote()
    ensures Pieces("'") == [Literal('\'')]
  {
  }

  lemma QuotePiece(rest: string)
    ensures Pieces("'" + rest) == [Literal('\'')] + Pieces(rest)
  {
    assert ("'" + rest)[1..] == rest;
  }

  lemma PlaceholderPiece(key: string, rest: string)
    requires key != "" && forall i :: 0 <= i < |key| ==> KeyChar(key[i])
    ensures Pieces("{{" + key + "}}" + rest) == [Placeholder(key)] + Pieces(rest)
  {
    hide PlaceholderKey;
    KeyIs(key, rest);
    assert ("{{" + key + "}}" + rest)[|key| + 4..] == rest;
  }

  lemma KeyIs(key: string, rest: string)
    requires key != "" && forall i :: 0 <= i < |key| ==> KeyChar(key[i])
    ensures PlaceholderKey("{{" + key + "}}" + rest) == Some(key)
  {
    hide KeyRun;
    var s := "{{" + key + "}}" + rest;
    KeyEnds(key, "}}" + rest);
    assert s[2..] == key + ("}}" + rest);
    assert s[2..|key| + 2] == key && s[|key| + 2] == '}' && s[|key| + 3] == '}';
  }

  lemma {:induction false} KeyEnds(key: string, rest: string)
    requires (forall i :: 0 <= i < |key| ==> KeyChar(key[i])) && rest != "" && !KeyChar(rest[0])
    ensures KeyRun(key + rest) == |key|
  {
    if key == "" {
      assert key + rest == rest;
    } else {
      KeyEnds(key[1..], rest);
      assert (key + rest)[0] == key[0] && (key + rest)[1..] == key[1..] + rest;
    }
  }
}
