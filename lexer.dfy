/**
 * The table-driven lexical analyser (the `Scanner` object and the
 * `matchboxScanner` rule table).  Each regular expression of the table is
 * modelled as a greedy prefix matcher over the five fixed pattern shapes the
 * table uses, plus the leading-whitespace skip and the one-character
 * fallback.
 */
module Lexer {
  import opened Wrappers

  // ---------------------------------------------------------------------
  // Character classes: `\d`, `[a-zA-Z]` and `[ \t\n\r]`
  // ---------------------------------------------------------------------

  datatype CharClass = Digit | Letter | Blank

  predicate InClass(k: CharClass, c: char) {
    match k
    case Digit => '0' <= c <= '9'
    case Letter => 'a' <= c <= 'z' || 'A' <= c <= 'Z'
    case Blank => c == ' ' || c == '\t' || c == '\n' || c == '\r'
  }

  /** Every character of `w` from index `from` on belongs to class `k`. */
  predicate AllIn(k: CharClass, w: string, from: nat) {
    forall i :: from <= i < |w| ==> InClass(k, w[i])
  }

  /** Length of the longest prefix of `s` made of class-`k` characters (`[k]*`, greedy). */
  function Span(k: CharClass, s: string): (n: nat)
    ensures n <= |s|
    ensures n == |s| || !InClass(k, s[n])
  {
    if |s| > 0 && InClass(k, s[0]) then 1 + Span(k, s[1..]) else 0
  }

  /** Every character of the span is of the class. */
  lemma {:induction false} SpanAll(k: CharClass, s: string)
    ensures AllIn(k, s[..Span(k, s)], 0)
  {
    if |s| > 0 && InClass(k, s[0]) {
      SpanAll(k, s[1..]);
      assert forall i :: 1 <= i < Span(k, s) ==> s[..Span(k, s)][i] == s[1..][..Span(k, s[1..])][i - 1];
    }
  }

  /** What is left of `s` once `^[ \t\n\r]*` has been consumed. */
  function AfterBlanks(s: string): (t: string)
    ensures |t| <= |s| && t == s[|s| - |t|..]
    ensures |t| > 0 ==> !InClass(Blank, t[0])
  {
    s[Span(Blank, s)..]
  }

  // ---------------------------------------------------------------------
  // Patterns: the anchored regular expressions of the rule table
  // ---------------------------------------------------------------------

  datatype Pattern =
    | Digits                              // ^(\d+)
    | TaggedDigits(lower: char, upper: char)  // ^([xX]\d+)
    | Letters                             // ^([a-zA-Z]+)
    | Exactly(c: char)                    // ^(c)
    | AnyChar                             // ^([\s\S])

  /** The language of a pattern: the words it matches as a whole. */
  predicate Matches(p: Pattern, w: string) {
    match p
    case Digits => |w| > 0 && AllIn(Digit, w, 0)
    case TaggedDigits(lower, upper) => |w| > 1 && (w[0] == lower || w[0] == upper) && AllIn(Digit, w, 1)
    case Letters => |w| > 0 && AllIn(Letter, w, 0)
    case Exactly(c) => w == [c]
    case AnyChar => |w| == 1
  }

  /** Length of the match of `p` at the start of `s`, or None when `re.exec` returns null. */
  function MatchLength(p: Pattern, s: string): (r: Option<nat>)
    ensures r.Some? ==> 0 < r.value <= |s|
  {
    match p
    case Digits =>
      var n := Span(Digit, s);
      if n > 0 then Some(n) else None
    case TaggedDigits(lower, upper) =>
      if |s| > 0 && (s[0] == lower || s[0] == upper) then
        var n := Span(Digit, s[1..]);
        if n > 0 then Some(1 + n) else None
      else None
    case Letters =>
      var n := Span(Letter, s);
      if n > 0 then Some(n) else None
    case Exactly(c) =>
      if |s| > 0 && s[0] == c then Some(1) else None
    case AnyChar =>
      if |s| > 0 then Some(1) else None
  }

  /**
   * The matcher is sound, greedy and complete: the prefix it reports
   * matches, no longer prefix matches, and None means no prefix matches.
   */
  lemma MatchLengthGreedy(p: Pattern, s: string)
    ensures MatchLength(p, s).Some? ==> Matches(p, s[..MatchLength(p, s).value])
    ensures MatchLength(p, s).Some? ==>
      forall m :: MatchLength(p, s).value < m <= |s| ==> !Matches(p, s[..m])
    ensures MatchLength(p, s).None? ==> forall m :: 0 <= m <= |s| ==> !Matches(p, s[..m])
  {
    var r := MatchLength(p, s);
    forall m | 0 <= m <= |s| && (r.None? || r.value < m)
      ensures !Matches(p, s[..m])
    {
      var w := s[..m];
      match p {
        case Digits =>
          var n := Span(Digit, s);
          if m > 0 { assert w[n] == s[n]; }
        case TaggedDigits(lower, upper) =>
          if |s| > 0 && (s[0] == lower || s[0] == upper) {
            var n := Span(Digit, s[1..]);
            if m > 1 { assert w[1 + n] == s[1..][n]; }
          } else if m > 0 {
            assert w[0] == s[0];
          }
        case Letters =>
          var n := Span(Letter, s);
          if m > 0 { assert w[n] == s[n]; }
        case Exactly(c) =>
          if m > 0 { assert w[0] == s[0]; }
        case AnyChar =>
      }
    }
    if r.Some? {
      var w := s[..r.value];
      match p {
        case Digits =>
          SpanAll(Digit, s);
        case TaggedDigits(lower, upper) =>
          SpanAll(Digit, s[1..]);
          assert forall i :: 1 <= i < |w| ==> w[i] == s[1..][..r.value - 1][i - 1];
        case Letters =>
          SpanAll(Letter, s);
        case Exactly(c) =>
        case AnyChar =>
      }
    }
  }

  // ---------------------------------------------------------------------
  // Token kinds and the rule table
  // ---------------------------------------------------------------------

  datatype Kind = Immediate | Register | Memory | Opcode | Comma | UnknownCharacter | EOF

  /** The type names the source uses, as they appear in error messages. */
  function KindName(k: Kind): string {
    match k
    case Immediate => "immediate"
    case Register => "register"
    case Memory => "memory"
    case Opcode => "opcode"
    case Comma => "comma"
    case UnknownCharacter => "unknown character"
    case EOF => "EOF"
  }

  datatype Rule = Rule(kind: Kind, pattern: Pattern)

  /** The `matchboxScanner` table, in its order. */
  const MatchboxTable: seq<Rule> := [
    Rule(Immediate, Digits),
    Rule(Register, TaggedDigits('r', 'R')),
    Rule(Memory, TaggedDigits('m', 'M')),
    Rule(Opcode, Letters),
    Rule(Comma, Exactly(','))
  ]

  /** The state `scan` leaves behind: the token's type, the token (None for null) and the remaining text. */
  datatype Lexeme = Lexeme(kind: Kind, token: Option<string>, rest: string)

  /**
   * The rules from `from` on, tried in table order at the start of `t` (which
   * has no leading blank): the first whose pattern matches gives the token,
   * and when none does the token is one unknown character.
   */
  function LexFrom(table: seq<Rule>, t: string, from: nat): (r: Lexeme)
    requires from <= |table|
    ensures r.token.None? <==> |t| == 0
    ensures r.token.None? ==> r.kind == EOF && r.rest == []
    ensures r.token.Some? ==> |r.rest| < |t|
    decreases |table| - from
  {
    if |t| == 0 then Lexeme(EOF, None, [])
    else if from == |table| then Lexeme(UnknownCharacter, Some(t[..1]), t[1..])
    else match MatchLength(table[from].pattern, t)
      case Some(n) => Lexeme(table[from].kind, Some(t[..n]), t[n..])
      case None => LexFrom(table, t, from + 1)
  }

  /** What one `scan` produces from the remaining text `s`. */
  function Lex(table: seq<Rule>, s: string): (r: Lexeme)
    ensures r.token.None? <==> |AfterBlanks(s)| == 0
    ensures r.token.None? ==> r.kind == EOF && r.rest == []
    ensures r.token.Some? ==> |r.rest| < |s|
  {
    LexFrom(table, AfterBlanks(s), 0)
  }

  /** A token is a non-empty prefix of `t`, and the rest of `t` follows it. */
  lemma {:induction false} LexFromShape(table: seq<Rule>, t: string, from: nat)
    requires from <= |table|
    ensures var r := LexFrom(table, t, from);
      r.token.Some? ==> |r.token.value| > 0 && t == r.token.value + r.rest
    decreases |table| - from
  {
    if |t| > 0 && from < |table| && MatchLength(table[from].pattern, t).None? {
      LexFromShape(table, t, from + 1);
    }
  }

  /** A token is a non-empty prefix of the text after the blanks, and the rest of the text follows it. */
  lemma LexShape(table: seq<Rule>, s: string)
    ensures var r := Lex(table, s);
      r.token.Some? ==> |r.token.value| > 0 && AfterBlanks(s) == r.token.value + r.rest && r.rest == s[|s| - |r.rest|..]
  {
    LexFromShape(table, AfterBlanks(s), 0);
  }

  /** Leading whitespace does not change what `scan` finds. */
  lemma LexSkipsBlank(table: seq<Rule>, b: char, s: string)
    requires InClass(Blank, b)
    ensures Lex(table, [b] + s) == Lex(table, s)
  {
    var bs := [b] + s;
    assert bs[1..] == s;
    assert AfterBlanks(bs) == AfterBlanks(s);
  }

  function Cut(kind: Kind, t: string, n: nat): Lexeme
    requires n <= |t|
  {
    Lexeme(kind, Some(t[..n]), t[n..])
  }

  /**
   * Reference definition of one scan with the Matchbox table, by direct case
   * analysis of a non-empty text `t` that starts past any whitespace: a digit
   * run is an immediate; `r`/`R` or `m`/`M` followed by digits is a register or
   * memory reference; otherwise a letter run is an opcode; a comma is a comma;
   * anything else is one unknown character.
   */
  function MatchboxScan(t: string): Lexeme
    requires |t| > 0
  {
    if InClass(Digit, t[0]) then Cut(Immediate, t, Span(Digit, t))
    else if |t| > 1 && (t[0] == 'r' || t[0] == 'R') && InClass(Digit, t[1]) then
      Cut(Register, t, 1 + Span(Digit, t[1..]))
    else if |t| > 1 && (t[0] == 'm' || t[0] == 'M') && InClass(Digit, t[1]) then
      Cut(Memory, t, 1 + Span(Digit, t[1..]))
    else if InClass(Letter, t[0]) then Cut(Opcode, t, Span(Letter, t))
    else if t[0] == ',' then Cut(Comma, t, 1)
    else Cut(UnknownCharacter, t, 1)
  }

  /** The table-driven scan with the Matchbox table (table order, greedy matches) is the reference scan. */
  lemma MatchboxLex(s: string)
    ensures var t := AfterBlanks(s);
      Lex(MatchboxTable, s) == if |t| == 0 then Lexeme(EOF, None, []) else MatchboxScan(t)
  {
    var t := AfterBlanks(s);
    if |t| > 0 {
      MatchboxLexFrom(t);
    }
  }

  /** Walking the Matchbox table over a text with no leading blank gives the reference scan. */
  lemma MatchboxLexFrom(t: string)
    requires |t| > 0
    ensures LexFrom(MatchboxTable, t, 0) == MatchboxScan(t)
  {
    var T := MatchboxTable;
    DigitsRule(t);
    TaggedRule('r', 'R', t);
    TaggedRule('m', 'M', t);
    LettersRule(t);
    if !InClass(Digit, t[0]) {
      assert LexFrom(T, t, 0) == LexFrom(T, t, 1);
      if MatchLength(T[1].pattern, t).None? {
        assert LexFrom(T, t, 1) == LexFrom(T, t, 2);
        if MatchLength(T[2].pattern, t).None? {
          assert LexFrom(T, t, 2) == LexFrom(T, t, 3);
          if !InClass(Letter, t[0]) {
            assert LexFrom(T, t, 3) == LexFrom(T, t, 4);
            if t[0] != ',' {
              assert LexFrom(T, t, 4) == LexFrom(T, t, 5);
            }
          }
        }
      }
    }
  }

  lemma DigitsRule(t: string)
    requires |t| > 0
    ensures MatchLength(Digits, t) == if InClass(Digit, t[0]) then Some(Span(Digit, t)) else None
  {
  }

  lemma TaggedRule(lower: char, upper: char, t: string)
    requires |t| > 0
    ensures MatchLength(TaggedDigits(lower, upper), t) ==
      if |t| > 1 && (t[0] == lower || t[0] == upper) && InClass(Digit, t[1]) then Some(1 + Span(Digit, t[1..])) else None
  {
    if |t| > 1 {
      assert t[1..][0] == t[1];
    }
  }

  lemma LettersRule(t: string)
    requires |t| > 0
    ensures MatchLength(Letters, t) == if InClass(Letter, t[0]) then Some(Span(Letter, t)) else None
  {
  }

  // ---------------------------------------------------------------------
  // The token stream of a line: `scan` repeated until EOF
  // ---------------------------------------------------------------------

  datatype Token = Token(kind: Kind, text: string)

  function Tokens(table: seq<Rule>, s: string): (ts: seq<Token>)
    decreases |s|
  {
    var l := Lex(table, s);
    if l.token.None? then [] else [Token(l.kind, l.token.value)] + Tokens(table, l.rest)
  }

  /** Error-message rendering of the token field: null prints as "null". */
  function Show(token: Option<string>): string {
    match token
    case None => "null"
    case Some(t) => t
  }

  // ---------------------------------------------------------------------
  // The Scanner object
  // ---------------------------------------------------------------------

  /**
   * A scanner over one rule table.  The constructor performs `init(table)`
   * followed by `reset(text)`; `matchboxScanner` is one such object, shared
   * by every `parse`.
   */
  class Scanner {
    const table: seq<Rule>
    var text: string
    var token: Option<string>
    var tokenType: Kind
    var error: Option<string>

    /** The observable scanning state. */
    function Current(): Lexeme
      reads this
    {
      Lexeme(tokenType, token, text)
    }

    constructor (table: seq<Rule>, text: string)
      ensures this.table == table
      ensures Current() == Lex(table, text) && error == None
    {
      this.table := table;
      this.text, token, tokenType, error := text, None, EOF, None;
      new;
      Reset(text);
    }

    method Reset(text: string)
      modifies this
      ensures Current() == Lex(table, text) && error == None
    {
      this.text := text;
      error := None;
      Scan();
    }

    /** Try one pattern at the start of the text; on a match take the token and advance. */
    method ScanPattern(p: Pattern, kind: Kind) returns (matched: bool)
      modifies this
      ensures matched <==> MatchLength(p, old(text)).Some?
      ensures matched ==>
        var n := MatchLength(p, old(text)).value;
        Current() == Lexeme(kind, Some(old(text)[..n]), old(text)[n..])
      ensures !matched ==> Current() == old(Current())
      ensures error == old(error)
    {
      var m := MatchLength(p, text);
      if m.None? {
        return false;
      }
      tokenType := kind;
      token := Some(text[..m.value]);
      text := text[m.value..];
      return true;
    }

    /** Skip whitespace, then report EOF or the first rule that matches, else one unknown character. */
    method Scan()
      modifies this
      ensures Current() == Lex(table, old(text)) && error == old(error)
    {
      // The whitespace pattern has no capturing group: only the text changes
      // here, and the type and token are overwritten below on every path.
      text := text[Span(Blank, text)..];
      ghost var t := text;
      assert t == AfterBlanks(old(text));
      if |text| == 0 {
        token, tokenType := None, EOF;
        return;
      }
      var i := 0;
      while i < |table|
        invariant 0 <= i <= |table|
        invariant text == t && error == old(error)
        invariant LexFrom(table, t, 0) == LexFrom(table, t, i)
      {
        var matched := ScanPattern(table[i].pattern, table[i].kind);
        if matched {
          return;
        }
        i := i + 1;
      }
      var matched := ScanPattern(AnyChar, UnknownCharacter);
      assert Current() == Lexeme(UnknownCharacter, Some(t[..1]), t[1..]);
    }

    /** `on(tok)`: whether the current token is `tok`. */
    function On(tok: string): (r: bool)
      reads this
      ensures r <==> Current().token == Some(tok)
    {
      token == Some(tok)
    }

    /** `onType(type)`: whether the current token is of that type. */
    function OnType(kind: Kind): (r: bool)
      reads this
      ensures r <==> Current().kind == kind
    {
      tokenType == kind
    }

    method Expect(tok: string)
      modifies this
      ensures old(token) == Some(tok) ==> Current() == Lex(table, old(text)) && error == old(error)
      ensures old(token) != Some(tok) ==>
        Current() == old(Current()) &&
        error == Some("expected '" + tok + "' but found '" + Show(old(token)) + "'")
    {
      if token == Some(tok) {
        Scan();
      } else {
        error := Some("expected '" + tok + "' but found '" + Show(token) + "'");
      }
    }

    method CheckType(kind: Kind)
      modifies this
      ensures Current() == old(Current())
      ensures error == if old(tokenType) == kind then old(error)
        else Some("expected " + KindName(kind) + " but found " + KindName(tokenType) + " (" + Show(token) + ")")
    {
      if tokenType != kind {
        error := Some("expected " + KindName(kind) + " but found " + KindName(tokenType) + " (" + Show(token) + ")");
      }
    }

    method ExpectType(kind: Kind)
      modifies this
      ensures Current() == Lex(table, old(text))
      ensures error == if old(tokenType) == kind then old(error)
        else Some("expected " + KindName(kind) + " but found " + KindName(old(tokenType)) + " (" + Show(old(token)) + ")")
    {
      CheckType(kind);
      Scan();
    }

    method Consume(tok: string) returns (consumed: bool)
      modifies this
      ensures consumed <==> old(token) == Some(tok)
      ensures consumed ==> Current() == Lex(table, old(text))
      ensures !consumed ==> Current() == old(Current())
      ensures error == old(error)
    {
      if On(tok) {
        Scan();
        return true;
      } else {
        return false;
      }
    }
  }
}
