/**
 The tokenizer of the condition language. At each position the alternatives are
 tried in a fixed order; the operator words have no word boundary, the keywords do.
 */
module Tokenizer {
  import opened Common
  import opened Branching

  // ---- character classes and single alternatives ------------------------

  predicate IsDigit(c: char) { '0' <= c <= '9' }

  predicate IsLetter(c: char) { 'a' <= c <= 'z' || 'A' <= c <= 'Z' }

  predicate IsIdentStart(c: char) { IsLetter(c) || c == '_' }

  predicate IsWord(c: char) { IsIdentStart(c) || IsDigit(c) }

  /** The end of the longest run of characters satisfying `p` from `pos` on. */
  function RunEnd(s: string, pos: nat, p: char -> bool): (end: nat)
    requires pos <= |s|
    ensures pos <= end <= |s|
    ensures forall i :: pos <= i < end ==> p(s[i])
    ensures end < |s| ==> !p(s[end])
    decreases |s| - pos
  {
    if pos < |s| && p(s[pos]) then RunEnd(s, pos + 1, p) else pos
  }

  /** Case-insensitive match of one character. */
  predicate Reads(s: string, pos: nat, c: char) {
    pos < |s| && LowerChar(s[pos]) == c
  }

  predicate ReadsIn(s: string, pos: nat) {
    Reads(s, pos, 'i') && Reads(s, pos + 1, 'n')
  }

  predicate ReadsContains(s: string, pos: nat) {
    && Reads(s, pos, 'c') && Reads(s, pos + 1, 'o') && Reads(s, pos + 2, 'n') && Reads(s, pos + 3, 't')
    && Reads(s, pos + 4, 'a') && Reads(s, pos + 5, 'i') && Reads(s, pos + 6, 'n') && Reads(s, pos + 7, 's')
  }

  predicate ReadsNot(s: string, pos: nat) {
    Reads(s, pos, 'n') && Reads(s, pos + 1, 'o') && Reads(s, pos + 2, 't')
  }

  predicate ReadsAnd(s: string, pos: nat) {
    Reads(s, pos, 'a') && Reads(s, pos + 1, 'n') && Reads(s, pos + 2, 'd')
  }

  predicate ReadsOr(s: string, pos: nat) {
    Reads(s, pos, 'o') && Reads(s, pos + 1, 'r')
  }

  /** A word boundary between `pos - 1` and `pos`. */
  predicate Boundary(s: string, pos: nat) {
    (0 < pos <= |s| && IsWord(s[pos - 1])) != (pos < |s| && IsWord(s[pos]))
  }

  /** The end of an optional fraction behind the digits that end at `whole`. */
  function FractionEnd(s: string, whole: nat): (end: nat)
    requires whole <= |s|
    ensures whole <= end <= |s|
  {
    if whole < |s| && s[whole] == '.' then
      var frac := RunEnd(s, whole + 1, IsDigit);
      if frac == whole + 1 then whole else frac
    else whole
  }

  /** Where a number literal starting at `pos` ends; `pos` when there is none. */
  function NumberEnd(s: string, pos: nat): (end: nat)
    requires pos <= |s|
    ensures pos <= end <= |s|
  {
    var start := if pos < |s| && s[pos] == '-' then pos + 1 else pos;
    var whole := RunEnd(s, start, IsDigit);
    if whole == start then pos else FractionEnd(s, whole)
  }

  /** Behind the closing quote of a string literal whose body starts at `pos`. */
  function StringEnd(s: string, pos: nat, quote: char): (end: Option<nat>)
    ensures end.Some? ==> pos < end.value <= |s|
    decreases |s| - pos
  {
    if pos >= |s| then None
    else if s[pos] == quote then Some(pos + 1)
    else if s[pos] == '\\' then
      if pos + 1 < |s| && s[pos + 1] != '\n' then StringEnd(s, pos + 2, quote) else None
    else StringEnd(s, pos + 1, quote)
  }

  /** Replaces every backslash-quote pair by the quote, left to right. */
  function DropEscapes(s: string, quote: char): string {
    if |s| >= 2 && s[0] == '\\' && s[1] == quote then [quote] + DropEscapes(s[2..], quote)
    else if s == [] then []
    else [s[0]] + DropEscapes(s[1..], quote)
  }

  function Unescape(raw: string): string {
    DropEscapes(DropEscapes(raw, '\''), '"')
  }

  // ---- one lexeme, and the whole text -----------------------------------

  datatype Lexeme = NoMatch | Blank(end: nat) | Lexed(token: Token, end: nat)

  /** Punctuation, operator words and keywords, with the number of characters they take. */
  function WordAt(s: string, pos: nat): (r: Option<(Token, nat)>)
    requires pos < |s|
    ensures r.Some? ==> 0 < r.value.1 <= |s| - pos && r.value.0 != Eof && !IsOperand(r.value.0)
  {
    if s[pos] == '(' then Some((LPar, 1))
    else if s[pos] == ')' then Some((RPar, 1))
    else if s[pos] == '=' && Reads(s, pos + 1, '=') then Some((OpT(Eq), 2))
    else if s[pos] == '!' && Reads(s, pos + 1, '=') then Some((OpT(Ne), 2))
    else if ReadsIn(s, pos) then Some((OpT(In), 2))
    else if ReadsContains(s, pos) then Some((OpT(Contains), 8))
    else if ReadsNot(s, pos) && Boundary(s, pos) && Boundary(s, pos + 3) then Some((NotT, 3))
    else if ReadsAnd(s, pos) && Boundary(s, pos) && Boundary(s, pos + 3) then Some((AndT, 3))
    else if ReadsOr(s, pos) && Boundary(s, pos) && Boundary(s, pos + 2) then Some((OrT, 2))
    else None
  }

  /** Numbers, strings and identifiers. */
  function LiteralAt(s: string, pos: nat): (r: Lexeme)
    requires pos < |s|
    ensures !r.Blank?
    ensures r.Lexed? ==> pos < r.end <= |s| && IsOperand(r.token)
  {
    var c := s[pos];
    if NumberEnd(s, pos) > pos then Lexed(NumberT(s[pos..NumberEnd(s, pos)]), NumberEnd(s, pos))
    else if (c == '"' || c == '\'') && StringEnd(s, pos + 1, c).Some? then
      var end := StringEnd(s, pos + 1, c).value;
      Lexed(TextT(Unescape(s[pos + 1..end - 1])), end)
    else if IsIdentStart(c) then
      var end := RunEnd(s, pos, IsWord);
      assert end > pos by { assert IsWord(c); }
      Lexed(IdentT(s[pos..end]), end)
    else NoMatch
  }

  function LexAt(s: string, pos: nat): (r: Lexeme)
    requires pos < |s|
    ensures !r.NoMatch? ==> pos < r.end <= |s|
    ensures r.Lexed? ==> r.token != Eof
  {
    if IsSpace(s[pos]) then Blank(RunEnd(s, pos, IsSpace))
    else
      match WordAt(s, pos)
      case Some((t, len)) => Lexed(t, pos + len)
      case None => LiteralAt(s, pos)
  }

  function Prepend(front: seq<Token>, rest: Option<seq<Token>>): Option<seq<Token>> {
    if rest.None? then None else Some(front + rest.value)
  }

  function TokenizeFrom(s: string, pos: nat): (r: Option<seq<Token>>)
    requires pos <= |s|
    ensures r.Some? ==> Closed(r.value)
    decreases |s| - pos
  {
    if pos == |s| then Some([Eof])
    else
      match LexAt(s, pos)
      case NoMatch => None
      case Blank(end) => TokenizeFrom(s, end)
      case Lexed(t, end) => Prepend([t], TokenizeFrom(s, end))
  }

  method Tokenize(s: string) returns (r: Option<seq<Token>>)
    ensures r == TokenizeFrom(s, 0)
  {
    var tokens: seq<Token> := [];
    var pos := 0;
    PrependNothing(TokenizeFrom(s, 0));
    while pos < |s|
      invariant pos <= |s|
      invariant TokenizeFrom(s, 0) == Prepend(tokens, TokenizeFrom(s, pos))
      decreases |s| - pos
    {
      match LexAt(s, pos) {
        case NoMatch =>
          return None;
        case Blank(end) =>
          pos := end;
        case Lexed(t, end) =>
          PrependTwice(tokens, t, TokenizeFrom(s, end));
          tokens := tokens + [t];
          pos := end;
      }
    }
    r := Some(tokens + [Eof]);
  }

  lemma PrependNothing(rest: Option<seq<Token>>)
    ensures Prepend([], rest) == rest
  {
    if rest.Some? { assert [] + rest.value == rest.value; }
  }

  lemma PrependTwice(front: seq<Token>, t: Token, rest: Option<seq<Token>>)
    ensures Prepend(front, Prepend([t], rest)) == Prepend(front + [t], rest)
  {
    if rest.Some? { assert front + ([t] + rest.value) == front + [t] + rest.value; }
  }

  // ---- spelling tokens --------------------------------------------------

  function EscapeQuotes(s: string): string {
    if s == [] then []
    else (if s[0] == '"' then "\\\"" else [s[0]]) + EscapeQuotes(s[1..])
  }

  function Spell(t: Token): string {
    match t
    case LPar => "("
    case RPar => ")"
    case NotT => "not"
    case AndT => "and"
    case OrT => "or"
    case OpT(Eq) => "=="
    case OpT(Ne) => "!="
    case OpT(In) => "in"
    case OpT(Contains) => "contains"
    case NumberT(x) => x
    case TextT(s) => "\"" + EscapeQuotes(s) + "\""
    case IdentT(x) => x
    case Eof => ""
  }

  ghost predicate IdentShape(x: string) {
    x != [] && IsIdentStart(x[0]) && forall i :: 0 <= i < |x| ==> IsWord(x[i])
  }

  /** A name the tokenizer takes as one identifier: no keyword, and no operator word in front. */
  ghost predicate PlainIdent(x: string) {
    && IdentShape(x)
    && !ReadsIn(x, 0) && !ReadsContains(x, 0)
    && !(|x| == 3 && ReadsNot(x, 0)) && !(|x| == 3 && ReadsAnd(x, 0)) && !(|x| == 2 && ReadsOr(x, 0))
  }

  /** Tokens that can be written down: no backslash in strings, number and identifier lexemes well shaped. */
  ghost predicate Spellable(t: Token) {
    match t
    case NumberT(x) => x != [] && NumberEnd(x, 0) == |x|
    case TextT(s) => '\\' !in s
    case IdentT(x) => PlainIdent(x)
    case Eof => false
    case _ => true
  }

  function Print(ts: seq<Token>): string {
    if ts == [] then "" else Spell(ts[0]) + " " + Print(ts[1..])
  }

  // ---- reading a spelled token back -------------------------------------

  /** `w` stands alone in `s` at `pos`: blank or nothing on both sides. */
  ghost predicate Stands(s: string, pos: nat, w: string) {
    && pos + |w| <= |s|
    && (forall i :: 0 <= i < |w| ==> s[pos + i] == w[i])
    && (pos > 0 ==> s[pos - 1] == ' ')
    && (pos + |w| < |s| ==> s[pos + |w|] == ' ')
  }

  lemma {:induction false} RunEndIs(s: string, pos: nat, p: char -> bool, end: nat)
    requires pos <= end <= |s|
    requires forall i :: pos <= i < end ==> p(s[i])
    requires end < |s| ==> !p(s[end])
    ensures RunEnd(s, pos, p) == end
    decreases end - pos
  {
    if pos < end { RunEndIs(s, pos + 1, p, end); }
  }

  lemma SliceIs(s: string, pos: nat, w: string)
    requires Stands(s, pos, w)
    ensures s[pos..pos + |w|] == w
  {
  }

  lemma LexIdent(s: string, pos: nat, x: string)
    requires Stands(s, pos, x) && PlainIdent(x)
    ensures LexAt(s, pos) == Lexed(IdentT(x), pos + |x|)
  {
    assert s[pos] == x[0] && IsIdentStart(s[pos]);
    NoOperator(s, pos, x);
    NoKeyword(s, pos, x);
    assert WordAt(s, pos) == None;
    NoDigitFirst(s, pos);
    forall i | pos <= i < pos + |x| ensures IsWord(s[i]) { assert s[pos + (i - pos)] == x[i - pos]; }
    RunEndIs(s, pos, IsWord, pos + |x|);
    SliceIs(s, pos, x);
  }

  lemma NoDigitFirst(s: string, pos: nat)
    requires pos < |s| && !IsDigit(s[pos]) && s[pos] != '-'
    ensures NumberEnd(s, pos) == pos
  {
    assert RunEnd(s, pos, IsDigit) == pos;
  }

  lemma NoOperator(s: string, pos: nat, x: string)
    requires Stands(s, pos, x) && PlainIdent(x)
    ensures !ReadsIn(s, pos) && !ReadsContains(s, pos)
  {
    var k := |x|;
    assert k < 2 || (s[pos] == x[0] && s[pos + 1] == x[1]);
    if k < 8 {
      assert pos + k == |s| || s[pos + k] == ' ';
    } else {
      assert s[pos] == x[0] && s[pos + 1] == x[1] && s[pos + 2] == x[2] && s[pos + 3] == x[3];
      assert s[pos + 4] == x[4] && s[pos + 5] == x[5] && s[pos + 6] == x[6] && s[pos + 7] == x[7];
    }
  }

  lemma NoKeyword(s: string, pos: nat, x: string)
    requires Stands(s, pos, x) && PlainIdent(x)
    ensures !(ReadsNot(s, pos) && Boundary(s, pos + 3))
    ensures !(ReadsAnd(s, pos) && Boundary(s, pos + 3))
    ensures !(ReadsOr(s, pos) && Boundary(s, pos + 2))
  {
    var k := |x|;
    assert s[pos] == x[0];
    if k >= 2 { assert s[pos + 1] == x[1]; }
    if k >= 3 { assert s[pos + 2] == x[2] && IsWord(x[2]); }
    if k >= 4 { assert s[pos + 3] == x[3] && IsWord(x[3]); }
    if k < 3 { assert pos + k == |s| || s[pos + k] == ' '; }
  }

  lemma LexNumber(s: string, pos: nat, x: string)
    requires Stands(s, pos, x) && Spellable(NumberT(x))
    ensures LexAt(s, pos) == Lexed(NumberT(x), pos + |x|)
  {
    hide NumberEnd;
    NumberStart(x);
    assert s[pos] == x[0];
    assert WordAt(s, pos) == None;
    ShiftNumber(s, pos, x);
    SliceIs(s, pos, x);
  }

  lemma NumberStart(x: string)
    requires x != [] && NumberEnd(x, 0) == |x|
    ensures x[0] == '-' || IsDigit(x[0])
  {
  }

  lemma ShiftNumber(s: string, pos: nat, x: string)
    requires Stands(s, pos, x) && x != [] && NumberEnd(x, 0) == |x|
    ensures NumberEnd(s, pos) == pos + |x|
  {
    hide FractionEnd;
    assert s[pos] == x[0];
    var start := if x[0] == '-' then 1 else 0;
    ShiftRun(s, pos, x, start);
    ShiftFraction(s, pos, x, RunEnd(x, start, IsDigit));
  }

  lemma ShiftFraction(s: string, pos: nat, x: string, whole: nat)
    requires Stands(s, pos, x) && whole <= |x| && FractionEnd(x, whole) == |x|
    ensures FractionEnd(s, pos + whole) == pos + |x|
  {
    if whole < |x| {
      assert s[pos + whole] == x[whole];
      ShiftRun(s, pos, x, whole + 1);
    }
  }

  lemma ShiftRun(s: string, pos: nat, x: string, k: nat)
    requires Stands(s, pos, x) && k <= |x|
    ensures RunEnd(s, pos + k, IsDigit) == pos + RunEnd(x, k, IsDigit)
  {
    var e := RunEnd(x, k, IsDigit);
    forall i | pos + k <= i < pos + e ensures IsDigit(s[i]) { assert s[pos + (i - pos)] == x[i - pos]; }
    if e < |x| { assert s[pos + e] == x[e]; }
    RunEndIs(s, pos + k, IsDigit, pos + e);
  }

  lemma LexText(s: string, pos: nat, t: string)
    requires Stands(s, pos, Spell(TextT(t))) && '\\' !in t
    ensures LexAt(s, pos) == Lexed(TextT(t), pos + |Spell(TextT(t))|)
  {
    ReadQuoted(s, pos, t);
    TextLexeme(s, pos, pos + |Spell(TextT(t))|, t);
  }

  lemma ReadQuoted(s: string, pos: nat, t: string)
    requires Stands(s, pos, Spell(TextT(t))) && '\\' !in t
    ensures pos + |Spell(TextT(t))| <= |s| && s[pos] == '"'
    ensures StringEnd(s, pos + 1, '"') == Some(pos + |Spell(TextT(t))|)
    ensures Unescape(s[pos + 1..pos + |Spell(TextT(t))| - 1]) == t
  {
    hide Spell, DropEscapes, StringEnd, EscapeQuotes, Unescape;
    QuotedBody(s, pos, t);
    ScanEscaped(s, pos + 1, t);
    UnescapeEscaped(t);
  }

  lemma UnescapeEscaped(t: string)
    requires '\\' !in t
    ensures Unescape(EscapeQuotes(t)) == t
  {
    NoSingleQuoteEscapes(t);
    DropAddsUp(t);
  }

  lemma TextLexeme(s: string, pos: nat, end: nat, t: string)
    requires pos < |s| && s[pos] == '"' && StringEnd(s, pos + 1, '"') == Some(end)
    requires Unescape(s[pos + 1..end - 1]) == t
    ensures LexAt(s, pos) == Lexed(TextT(t), end)
  {
    NoDigitFirst(s, pos);
    assert WordAt(s, pos) == None;
  }

  lemma QuotedBody(s: string, pos: nat, t: string)
    requires Stands(s, pos, Spell(TextT(t)))
    ensures var body := EscapeQuotes(t);
            && |Spell(TextT(t))| == |body| + 2 && s[pos] == '"'
            && s[pos + 1..pos + 1 + |body|] == body
            && (forall i :: 0 <= i < |body| ==> s[pos + 1 + i] == body[i])
            && s[pos + 1 + |body|] == '"'
  {
    var body := EscapeQuotes(t);
    var w := Spell(TextT(t));
    forall i | 0 <= i < |body| ensures s[pos + 1 + i] == body[i] { assert w[1 + i] == body[i]; }
    assert w[0] == '"' && s[pos] == w[0];
    assert w[1 + |body|] == '"' && s[pos + (1 + |body|)] == w[1 + |body|];
  }

  lemma {:induction false} ScanEscaped(s: string, pos: nat, t: string)
    requires '\\' !in t
    requires pos + |EscapeQuotes(t)| < |s|
    requires forall i :: 0 <= i < |EscapeQuotes(t)| ==> s[pos + i] == EscapeQuotes(t)[i]
    requires s[pos + |EscapeQuotes(t)|] == '"'
    ensures StringEnd(s, pos, '"') == Some(pos + |EscapeQuotes(t)| + 1)
    decreases |t|
  {
    var body := EscapeQuotes(t);
    if t == [] {
    } else {
      var head := if t[0] == '"' then "\\\"" else [t[0]];
      var rest := EscapeQuotes(t[1..]);
      assert body == head + rest;
      forall i | 0 <= i < |rest| ensures s[pos + |head| + i] == rest[i] { assert body[|head| + i] == rest[i]; }
      ScanEscaped(s, pos + |head|, t[1..]);
      assert s[pos] == body[0] == head[0];
      if t[0] == '"' { assert s[pos + 1] == body[1] == '"'; }
    }
  }

  /** A character that is no backslash stays, and so does an escape of the other quote. */
  lemma DropKeeps(c: char, rest: string)
    requires c != '\\'
    ensures DropEscapes([c] + rest, '\'') == [c] + DropEscapes(rest, '\'')
  {
    assert ([c] + rest)[1..] == rest;
  }

  lemma DropKeepsEscape(rest: string)
    ensures DropEscapes("\\\"" + rest, '\'') == "\\\"" + DropEscapes(rest, '\'')
  {
    var s := "\\\"" + rest;
    assert s[0] == '\\' && s[1] == '"' && s[1..] == ['"'] + rest;
    DropKeeps('"', rest);
    assert ['\\'] + (['"'] + DropEscapes(rest, '\'')) == "\\\"" + DropEscapes(rest, '\'');
  }

  lemma {:induction false} NoSingleQuoteEscapes(t: string)
    requires '\\' !in t
    ensures DropEscapes(EscapeQuotes(t), '\'') == EscapeQuotes(t)
    decreases |t|
  {
    hide DropEscapes;
    if t == [] {
      NothingToDrop();
    } else {
      var rest := EscapeQuotes(t[1..]);
      NoSingleQuoteEscapes(t[1..]);
      if t[0] == '"' { DropKeepsEscape(rest); } else { DropKeeps(t[0], rest); }
    }
  }

  lemma NothingToDrop()
    ensures DropEscapes("", '\'') == ""
  {
  }

  lemma {:induction false} DropAddsUp(t: string)
    requires '\\' !in t
    ensures DropEscapes(EscapeQuotes(t), '"') == t
    decreases |t|
  {
    if t == [] {
    } else {
      var rest := EscapeQuotes(t[1..]);
      DropAddsUp(t[1..]);
      var body := EscapeQuotes(t);
      if t[0] == '"' {
        assert body[0] == '\\' && body[1] == '"' && body[2..] == rest;
      } else {
        assert body[0] == t[0] && body[1..] == rest;
      }
      assert t == [t[0]] + t[1..];
    }
  }

  lemma LexWord(s: string, pos: nat, t: Token)
    requires t in {LPar, RPar, NotT, AndT, OrT} || t.OpT?
    requires Stands(s, pos, Spell(t))
    ensures LexAt(s, pos) == Lexed(t, pos + |Spell(t)|)
  {
    WordIs(s, pos, t);
    hide WordAt;
    assert s[pos] == Spell(t)[0];
  }

  lemma WordIs(s: string, pos: nat, t: Token)
    requires t in {LPar, RPar, NotT, AndT, OrT} || t.OpT?
    requires Stands(s, pos, Spell(t))
    ensures WordAt(s, pos) == Some((t, |Spell(t)|))
  {
    var w := Spell(t);
    assert s[pos] == w[0];
    if |w| >= 2 { assert s[pos + 1] == w[1]; }
    if |w| == 3 { assert s[pos + 2] == w[2]; }
    if t == OpT(Contains) { ContainsStands(s, pos); }
  }

  lemma ContainsStands(s: string, pos: nat)
    requires Stands(s, pos, "contains")
    ensures ReadsContains(s, pos)
  {
    var w := "contains";
    assert s[pos + 0] == w[0] && s[pos + 1] == w[1] && s[pos + 2] == w[2] && s[pos + 3] == w[3];
    assert s[pos + 4] == w[4] && s[pos + 5] == w[5] && s[pos + 6] == w[6] && s[pos + 7] == w[7];
  }

  lemma LexSpelled(s: string, pos: nat, t: Token)
    requires Spellable(t) && Stands(s, pos, Spell(t))
    ensures pos < |s| && LexAt(s, pos) == Lexed(t, pos + |Spell(t)|)
  {
    match t {
      case NumberT(x) => LexNumber(s, pos, x);
      case TextT(x) => LexText(s, pos, x);
      case IdentT(x) => LexIdent(s, pos, x);
      case _ => LexWord(s, pos, t);
    }
  }

  /** No spelled token begins with a blank. */
  lemma SpellStart(t: Token)
    requires Spellable(t)
    ensures Spell(t) != [] && !IsSpace(Spell(t)[0])
  {
    if t.NumberT? { NumberStart(t.lexeme); }
  }

  lemma SplitPrinted(s: string, pos: nat, w: string, rest: string)
    requires pos <= |s| && s[pos..] == w + " " + rest
    requires pos > 0 ==> s[pos - 1] == ' '
    ensures Stands(s, pos, w)
    ensures pos + |w| < |s| && s[pos + |w|] == ' ' && s[pos + |w| + 1..] == rest
  {
    var p := s[pos..];
    forall i | 0 <= i < |w| ensures s[pos + i] == w[i] { assert p[i] == w[i]; }
    assert s[pos + |w|] == p[|w|];
    assert s[pos + |w| + 1..] == p[|w| + 1..];
  }

  lemma BlankOne(s: string, pos: nat)
    requires pos < |s| && s[pos] == ' '
    requires pos + 1 < |s| ==> !IsSpace(s[pos + 1])
    ensures LexAt(s, pos) == Blank(pos + 1)
  {
    RunEndIs(s, pos, IsSpace, pos + 1);
  }

  lemma PrintStart(s: string, pos: nat, ts: seq<Token>)
    requires forall i :: 0 <= i < |ts| ==> Spellable(ts[i])
    requires pos <= |s| && s[pos..] == Print(ts)
    ensures pos < |s| ==> !IsSpace(s[pos])
  {
    if ts == [] {
      assert s[pos..] == "";
    } else {
      SpellStart(ts[0]);
      assert s[pos..][0] == Spell(ts[0])[0];
    }
  }

  ghost predicate PrintedAt(s: string, pos: nat, ts: seq<Token>) {
    && (forall i :: 0 <= i < |ts| ==> Spellable(ts[i]))
    && pos <= |s| && s[pos..] == Print(ts)
    && (pos > 0 ==> s[pos - 1] == ' ')
  }

  /** The first printed token and the blank behind it are read, and the rest stands behind them. */
  lemma FirstPrinted(s: string, pos: nat, ts: seq<Token>) returns (after: nat)
    requires PrintedAt(s, pos, ts) && ts != []
    ensures pos < after < |s| && PrintedAt(s, after + 1, ts[1..])
    ensures LexAt(s, pos) == Lexed(ts[0], after)
    ensures LexAt(s, after) == Blank(after + 1)
  {
    hide Spell, LexAt, RunEnd;
    var w := Spell(ts[0]);
    after := pos + |w|;
    SpellStart(ts[0]);
    SplitPrinted(s, pos, w, Print(ts[1..]));
    LexSpelled(s, pos, ts[0]);
    PrintStart(s, after + 1, ts[1..]);
    BlankOne(s, after);
  }

  /** Tokenizing printed tokens gives them back, whatever was read before them. */
  lemma {:induction false} TokenizePrinted(s: string, pos: nat, ts: seq<Token>)
    requires PrintedAt(s, pos, ts)
    ensures TokenizeFrom(s, pos) == Some(ts + [Eof])
    decreases |ts|
  {
    hide *;
    if ts == [] {
      TokenizeEnd(s, pos, ts);
    } else {
      var after := FirstPrinted(s, pos, ts);
      TokenizePrinted(s, after + 1, ts[1..]);
      TokenizeTwo(s, pos, ts, after);
    }
  }

  lemma TokenizeEnd(s: string, pos: nat, ts: seq<Token>)
    requires PrintedAt(s, pos, ts) && ts == []
    ensures TokenizeFrom(s, pos) == Some(ts + [Eof])
  {
    assert s[pos..] == "" && ts + [Eof] == [Eof];
  }

  lemma TokenizeTwo(s: string, pos: nat, ts: seq<Token>, after: nat)
    requires pos < after < |s| && ts != []
    requires LexAt(s, pos) == Lexed(ts[0], after) && LexAt(s, after) == Blank(after + 1)
    requires TokenizeFrom(s, after + 1) == Some(ts[1..] + [Eof])
    ensures TokenizeFrom(s, pos) == Some(ts + [Eof])
  {
    assert TokenizeFrom(s, after) == Some(ts[1..] + [Eof]);
    ConsAppend(ts, Eof);
  }

  lemma PrintRoundTrip(ts: seq<Token>)
    requires forall i :: 0 <= i < |ts| ==> Spellable(ts[i])
    ensures TokenizeFrom(Print(ts), 0) == Some(ts + [Eof])
  {
    TokenizePrinted(Print(ts), 0, ts);
  }

  /** A name is read as one identifier exactly when it is plain; `index` splits, `note` does not. */
  lemma IdentReadIffPlain(x: string)
    requires IdentShape(x)
    ensures TokenizeFrom(x, 0) == Some([IdentT(x), Eof]) <==> PlainIdent(x)
  {
    if PlainIdent(x) {
      LexIdent(x, 0, x);
      assert TokenizeFrom(x, |x|) == Some([Eof]);
      assert [IdentT(x)] + [Eof] == [IdentT(x), Eof];
    } else {
      assert LexAt(x, 0).Lexed? && !LexAt(x, 0).token.IdentT?;
      var rest := TokenizeFrom(x, LexAt(x, 0).end);
      if rest.Some? {
        assert ([LexAt(x, 0).token] + rest.value)[0] == LexAt(x, 0).token;
      }
    }
  }

  /** The operator needs no word boundary: a name in front of which `in` stands splits, as `index` into `in` and `dex`. */
  lemma NameSplitsAtIn(x: string)
    requires ReadsIn(x, 0) && IdentShape(x[2..]) && !ReadsIn(x, 2) && !ReadsContains(x, 2)
    ensures TokenizeFrom(x, 0) == Some([OpT(In), IdentT(x[2..]), Eof])
  {
    assert LexAt(x, 0) == Lexed(OpT(In), 2);
    assert IsIdentStart(x[2..][0]) && x[2..][0] == x[2] && !Boundary(x, 2);
    NoDigitFirst(x, 2);
    forall i | 2 <= i < |x| ensures IsWord(x[i]) { assert x[i] == x[2..][i - 2]; }
    RunEndIs(x, 2, IsWord, |x|);
    assert LexAt(x, 2) == Lexed(IdentT(x[2..]), |x|);
    assert TokenizeFrom(x, |x|) == Some([Eof]);
    assert [IdentT(x[2..])] + [Eof] == [IdentT(x[2..]), Eof];
    assert [OpT(In)] + [IdentT(x[2..]), Eof] == [OpT(In), IdentT(x[2..]), Eof];
  }

  ghost predicate AllDigits(s: string) {
    s != "" && forall i :: 0 <= i < |s| ==> '0' <= s[i] <= '9'
  }

  ghost predicate NumberParts(x: string, sign: string, whole: string, frac: string) {
    && x == sign + whole + frac && (sign == "" || sign == "-") && AllDigits(whole)
    && (frac == "" || (frac[0] == '.' && AllDigits(frac[1..])))
  }

  /** A number is an optional minus, digits, and optionally a point with digits behind it; nothing else is. */
  lemma NumberShape(x: string)
    requires x != ""
    ensures NumberEnd(x, 0) == |x| <==> exists sign, whole, frac :: NumberParts(x, sign, whole, frac)
  {
    if NumberEnd(x, 0) == |x| {
      var start := if x[0] == '-' then 1 else 0;
      var w := RunEnd(x, start, IsDigit);
      var sign, whole, frac := x[..start], x[start..w], x[w..];
      assert x == sign + whole + frac;
      if frac != "" { assert frac[0] == x[w] && frac[1..] == x[w + 1..]; }
      assert NumberParts(x, sign, whole, frac);
    }
    if sign, whole, frac :| NumberParts(x, sign, whole, frac) {
      NumberReads(x, sign, whole, frac);
    }
  }

  lemma NumberReads(x: string, sign: string, whole: string, frac: string)
    requires NumberParts(x, sign, whole, frac)
    ensures NumberEnd(x, 0) == |x|
  {
    var start, w := |sign|, |sign| + |whole|;
    assert x[start] == whole[0] && (x[0] == '-' <==> sign == "-");
    forall i | start <= i < w ensures IsDigit(x[i]) { assert x[i] == whole[i - start]; }
    if frac != "" { assert x[w] == frac[0]; }
    RunEndIs(x, start, IsDigit, w);
    if frac != "" {
      forall i | w + 1 <= i < |x| ensures IsDigit(x[i]) { assert x[i] == frac[1..][i - w - 1]; }
      RunEndIs(x, w + 1, IsDigit, |x|);
    }
  }

  ghost predicate WordChar(c: char) {
    'a' <= c <= 'z' || 'A' <= c <= 'Z' || '0' <= c <= '9' || c == '_'
  }

  /** No letter, digit or underscore stands in front of the word or behind it. */
  ghost predicate Alone(s: string, pos: nat, end: nat) {
    (pos == 0 || pos > |s| || !WordChar(s[pos - 1])) && (end >= |s| || !WordChar(s[end]))
  }

  /** `not`, `and` and `or` are keywords in any case, whatever stands around them but a word: `not(x)` is one, `notes` is none. */
  lemma KeywordMeans(s: string, pos: nat)
    requires pos < |s|
    ensures LexAt(s, pos) == Lexed(NotT, pos + 3) <==> ReadsNot(s, pos) && Alone(s, pos, pos + 3)
    ensures LexAt(s, pos) == Lexed(AndT, pos + 3) <==> ReadsAnd(s, pos) && Alone(s, pos, pos + 3)
    ensures LexAt(s, pos) == Lexed(OrT, pos + 2) <==> ReadsOr(s, pos) && Alone(s, pos, pos + 2)
  {
    hide NumberEnd, StringEnd, RunEnd, Unescape;
    var c := s[pos];
    if LowerChar(c) in {'n', 'a', 'o'} {
      assert IsLetter(c) && !IsSpace(c);
      assert WordAt(s, pos).None? ==> !LiteralAt(s, pos).Lexed? || IsOperand(LiteralAt(s, pos).token);
    }
  }

  /** A text with a backslash in front of every single quote. */
  function SingleEscaped(t: string): string {
    if t == [] then [] else (if t[0] == '\'' then "\\'" else [t[0]]) + SingleEscaped(t[1..])
  }

  lemma {:induction false} ScanSingle(s: string, pos: nat, t: string)
    requires '\\' !in t && pos + |SingleEscaped(t)| + 1 == |s|
    requires s[pos..] == SingleEscaped(t) + "'"
    ensures StringEnd(s, pos, '\'') == Some(|s|)
    decreases |t|
  {
    var rest := s[pos..];
    assert s[pos] == rest[0];
    if t != [] {
      var head := if t[0] == '\'' then "\\'" else [t[0]];
      assert SingleEscaped(t) == head + SingleEscaped(t[1..]);
      assert s[pos + |head|..] == rest[|head|..] == SingleEscaped(t[1..]) + "'";
      ScanSingle(s, pos + |head|, t[1..]);
      if t[0] == '\'' { assert s[pos + 1] == rest[1] == '\''; }
    }
  }

  lemma {:induction false} DropSingle(t: string)
    requires '\\' !in t
    ensures DropEscapes(SingleEscaped(t), '\'') == t
  {
    if t != [] {
      DropSingle(t[1..]);
      var body, rest := SingleEscaped(t), SingleEscaped(t[1..]);
      assert t == [t[0]] + t[1..];
      if t[0] == '\'' {
        assert body[0] == '\\' && body[1] == '\'' && body[2..] == rest;
      } else {
        assert body[0] == t[0] && body[1..] == rest;
      }
    }
  }

  lemma {:induction false} NothingEscaped(t: string, quote: char)
    requires '\\' !in t
    ensures DropEscapes(t, quote) == t
  {
    if t != "" {
      NothingEscaped(t[1..], quote);
      assert t == [t[0]] + t[1..];
    }
  }

  lemma SingleQuotedLexeme(s: string, t: string)
    requires s == "'" + SingleEscaped(t) + "'" && '\\' !in t
    ensures s[0] == '\'' && StringEnd(s, 1, '\'') == Some(|s|) && Unescape(s[1..|s| - 1]) == t
  {
    assert s[1..] == SingleEscaped(t) + "'" && s[1..|s| - 1] == SingleEscaped(t);
    ScanSingle(s, 1, t);
    DropSingle(t);
    NothingEscaped(t, '"');
  }

  lemma QuoteStarts(s: string)
    requires s != "" && s[0] == '\'' && StringEnd(s, 1, '\'') == Some(|s|)
    ensures LexAt(s, 0) == Lexed(TextT(Unescape(s[1..|s| - 1])), |s|)
  {
    hide StringEnd, Unescape;
    NoDigitFirst(s, 0);
    assert WordAt(s, 0) == None;
  }

  /** A text without backslashes, put in single quotes with its own single quotes escaped, is read as it was. */
  lemma SingleQuoted(t: string)
    requires '\\' !in t
    ensures TokenizeFrom("'" + SingleEscaped(t) + "'", 0) == Some([TextT(t), Eof])
  {
    hide LexAt, StringEnd, Unescape, SingleEscaped;
    var s := "'" + SingleEscaped(t) + "'";
    SingleQuotedLexeme(s, t);
    QuoteStarts(s);
    assert TokenizeFrom(s, |s|) == Some([Eof]);
    assert [TextT(t)] + [Eof] == [TextT(t), Eof];
  }
}
