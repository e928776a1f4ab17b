/**
 * One instruction of the toy machine: the fields `parse` fills in from a
 * line, `toString`, and `execute` of `MOV` over the register and memory
 * dictionaries.
 */
module Instructions {
  import opened Wrappers
  import opened Lexer
  import opened Decimal

  // ---------------------------------------------------------------------
  // The value of an instruction's five fields
  // ---------------------------------------------------------------------

  /** The operand type letters 'I', 'R' and 'M'. */
  datatype OperandType = I | R | M

  /** The five fields; None stands for `undefined`. */
  datatype Instr = Instr(
    opcode: Option<string>,
    srcType: Option<OperandType>,
    src: Option<nat>,
    destType: Option<OperandType>,
    dest: Option<nat>)

  /** All five fields undefined, as `parse` leaves them before reading. */
  const Unset := Instr(None, None, None, None, None)

  /** An operand type is set exactly when its location is. */
  predicate WellFormed(i: Instr) {
    (i.srcType.Some? <==> i.src.Some?) && (i.destType.Some? <==> i.dest.Some?)
  }

  // ---------------------------------------------------------------------
  // Parsing, over the token stream of the line
  // ---------------------------------------------------------------------

  predicate IsOperandKind(k: Kind) {
    k == Immediate || k == Register || k == Memory
  }

  function TypeOf(k: Kind): OperandType
    requires IsOperandKind(k)
  {
    match k
    case Immediate => I
    case Register => R
    case Memory => M
  }

  /** A number-carrying token has the shape its rule guarantees: digits, or its letter followed by digits. */
  predicate NumberToken(t: Token) {
    (t.kind == Immediate ==> |t.text| > 0 && AllIn(Digit, t.text, 0)) &&
    (t.kind == Register || t.kind == Memory ==> |t.text| > 1 && AllIn(Digit, t.text, 1)) &&
    (t.kind == Register ==> t.text[0] == 'r' || t.text[0] == 'R') &&
    (t.kind == Memory ==> t.text[0] == 'm' || t.text[0] == 'M')
  }

  predicate ValidTokens(ts: seq<Token>) {
    forall k :: 0 <= k < |ts| ==> NumberToken(ts[k])
  }

  /**
   * `parseInt(token, 10)` for an immediate, `parseInt(token.substr(1), 10)`
   * for R/M references; the scanner only ever hands over digits there
   * (`MatchboxTokensValid`).
   */
  function Number(t: Token): nat
  {
    if t.kind == Immediate || |t.text| == 0 then DecimalValue(t.text) else DecimalValue(t.text[1..])
  }

  /** A register written with leading zeros names the same register: `R007` is register 7. */
  lemma LeadingZerosIgnored()
    ensures Number(Token(Register, "R007")) == 7
  {
    assert "R007"[1..] == "0" + "07" && "07" == "0" + "7";
    DecimalValueLeadingZero("07");
    DecimalValueLeadingZero("7");
  }

  /** The reference scan only produces immediates made of digits and R/M references with digits past the letter. */
  lemma MatchboxScanNumbers(t: string)
    requires |t| > 0
    ensures MatchboxScan(t).token.Some?
    ensures NumberToken(Token(MatchboxScan(t).kind, MatchboxScan(t).token.value))
  {
    var l := MatchboxScan(t);
    var w := l.token.value;
    if InClass(Digit, t[0]) {
      SpanAll(Digit, t);
    } else if |t| > 1 && (t[0] == 'r' || t[0] == 'R' || t[0] == 'm' || t[0] == 'M') && InClass(Digit, t[1]) {
      SpanAll(Digit, t[1..]);
      forall k | 1 <= k < |w| ensures InClass(Digit, w[k]) { assert w[k] == t[1..][..|w| - 1][k - 1]; }
    }
  }

  /** Every token the Matchbox table produces has the shape its kind promises. */
  lemma {:induction false} MatchboxTokensValid(s: string)
    ensures ValidTokens(Tokens(MatchboxTable, s))
    decreases |s|
  {
    var l := Lex(MatchboxTable, s);
    if l.token.Some? {
      MatchboxLex(s);
      MatchboxScanNumbers(AfterBlanks(s));
      MatchboxTokensValid(l.rest);
      var ts := Tokens(MatchboxTable, s);
      var tail := Tokens(MatchboxTable, l.rest);
      assert ts == [Token(l.kind, l.token.value)] + tail;
      forall k | 0 <= k < |ts| ensures NumberToken(ts[k]) {
        if k > 0 { assert ts[k] == tail[k - 1]; }
      }
    }
  }

  /** The destination part: `consume(',')`, then a register or memory reference. */
  function ParseDest(i: Instr, ts: seq<Token>): (r: Instr)
  {
    if |ts| > 1 && ts[0].text == "," && (ts[1].kind == Register || ts[1].kind == Memory) then
      i.(destType := Some(TypeOf(ts[1].kind)), dest := Some(Number(ts[1])))
    else i
  }

  /** The optional source operand right after the opcode, then the destination part. */
  function ParseSource(i: Instr, ts: seq<Token>): (r: Instr)
  {
    if |ts| > 0 && IsOperandKind(ts[0].kind) then
      ParseDest(i.(srcType := Some(TypeOf(ts[0].kind)), src := Some(Number(ts[0]))), ts[1..])
    else ParseDest(i, ts)
  }

  /** `parse` as a function of the line's token stream. */
  function ParseTokens(ts: seq<Token>): (r: Instr)
  {
    if |ts| == 0 || ts[0].kind != Opcode then Unset
    else
      ParseSource(Unset.(opcode := Some(ts[0].text)), ts[1..])
  }

  /** The fields `parse(str)` leaves behind with `matchboxScanner`: read off the line's tokens. */
  function ParseLine(str: string): Instr {
    ParseTokens(Tokens(MatchboxTable, str))
  }

  /**
   * What `parse` yields, field by field: nothing unless the first token is an
   * opcode; a source only from an operand token right after it; a
   * destination only after a comma token, and only a register or memory
   * reference; numbers read from the token (past its letter for R/M).
   */
  lemma ParseTokensFields(ts: seq<Token>)
    ensures var r := ParseTokens(ts);
      && WellFormed(r)
      && r.destType != Some(I)
      && (r.opcode.Some? <==> |ts| > 0 && ts[0].kind == Opcode)
      && (r.opcode.None? ==> r == Unset)
      && (r.opcode.Some? ==> r.opcode.value == ts[0].text)
      && (r.srcType.Some? <==> r.opcode.Some? && |ts| > 1 && IsOperandKind(ts[1].kind))
      && (r.srcType.Some? ==> r.srcType == Some(TypeOf(ts[1].kind)) && r.src == Some(Number(ts[1])))
      && var k := if r.srcType.Some? then 2 else 1;
      && (r.destType.Some? <==>
            r.opcode.Some? && |ts| > k + 1 && ts[k].text == "," && (ts[k + 1].kind == Register || ts[k + 1].kind == Memory))
      && (r.destType.Some? ==> r.destType == Some(TypeOf(ts[k + 1].kind)) && r.dest == Some(Number(ts[k + 1])))
  {
  }

  /** Tokens after the destination operand are ignored. */
  lemma TrailingTokensIgnored(ts: seq<Token>, extra: seq<Token>)
    requires |ts| >= 4
    ensures ParseTokens(ts + extra) == ParseTokens(ts)
  {
    var all := ts + extra;
    assert forall k :: 0 <= k < 4 ==> all[k] == ts[k];
  }

  // ---------------------------------------------------------------------
  // toString
  // ---------------------------------------------------------------------

  /** String concatenation of a possibly undefined value. */
  function ShowText(o: Option<string>): string {
    match o
    case None => "undefined"
    case Some(s) => s
  }

  function ShowType(t: Option<OperandType>): string {
    match t
    case None => "undefined"
    case Some(I) => "I"
    case Some(R) => "R"
    case Some(M) => "M"
  }

  function ShowNumber(n: Option<nat>): string {
    match n
    case None => "undefined"
    case Some(v) => DecimalString(v)
  }

  /** The source as `toString` prints it: no letter for an immediate. */
  function SourcePart(i: Instr): string {
    (if i.srcType == Some(I) then "" else ShowType(i.srcType)) + ShowNumber(i.src)
  }

  /** The destination as `toString` prints it: nothing when `destType` is undefined. */
  function DestPart(i: Instr): string {
    if i.destType.None? then "" else ", " + ShowType(i.destType) + ShowNumber(i.dest)
  }

  /** `toString`: the opcode, a space, the source, then the destination part. */
  function Render(i: Instr): string {
    ShowText(i.opcode) + " " + SourcePart(i) + DestPart(i)
  }

  /** The instructions that `toString` prints in a form `parse` reads back. */
  predicate Printable(i: Instr) {
    && i.opcode.Some? && |i.opcode.value| > 0 && AllIn(Letter, i.opcode.value, 0)
    && i.srcType.Some? && i.src.Some?
    && ((i.destType.None? && i.dest.None?) || ((i.destType == Some(R) || i.destType == Some(M)) && i.dest.Some?))
  }

  lemma {:induction false} SpanOfWord(k: CharClass, w: string, rest: string)
    requires AllIn(k, w, 0)
    requires |rest| == 0 || !InClass(k, rest[0])
    ensures Span(k, w + rest) == |w|
    decreases |w|
  {
    if |w| > 0 {
      assert (w + rest)[1..] == w[1..] + rest;
      SpanOfWord(k, w[1..], rest);
    } else {
      assert w + rest == rest;
    }
  }

  /** The token shapes `toString` prints, each followed by a character that ends it. */
  predicate WordOf(kind: Kind, w: string, rest: string) {
    && |w| > 0
    && match kind
       case Immediate => AllIn(Digit, w, 0) && (|rest| == 0 || !InClass(Digit, rest[0]))
       case Register => |w| > 1 && w[0] == 'R' && AllIn(Digit, w, 1) && (|rest| == 0 || !InClass(Digit, rest[0]))
       case Memory => |w| > 1 && w[0] == 'M' && AllIn(Digit, w, 1) && (|rest| == 0 || !InClass(Digit, rest[0]))
       case Opcode => AllIn(Letter, w, 0) && (|rest| == 0 || (!InClass(Digit, rest[0]) && !InClass(Letter, rest[0])))
       case Comma => w == ","
       case _ => false
  }

  lemma ScanTaggedWord(kind: Kind, w: string, rest: string)
    requires (kind == Register || kind == Memory) && WordOf(kind, w, rest)
    ensures MatchboxScan(w + rest) == Cut(kind, w + rest, |w|)
  {
    var t := w + rest;
    assert t[0] == w[0] && t[1] == w[1];
    assert t[1..] == w[1..] + rest;
    SpanOfWord(Digit, w[1..], rest);
  }

  lemma ScanOpcodeWord(w: string, rest: string)
    requires WordOf(Opcode, w, rest)
    ensures MatchboxScan(w + rest) == Cut(Opcode, w + rest, |w|)
  {
    var t := w + rest;
    assert t[0] == w[0];
    assert |t| > 1 ==> t[1] == (if |w| > 1 then w[1] else rest[0]);
    SpanOfWord(Letter, w, rest);
  }

  lemma ScanWord(kind: Kind, w: string, rest: string)
    requires WordOf(kind, w, rest)
    ensures MatchboxScan(w + rest) == Cut(kind, w + rest, |w|)
  {
    var t := w + rest;
    assert t[0] == w[0];
    match kind {
      case Immediate => SpanOfWord(Digit, w, rest);
      case Register => ScanTaggedWord(kind, w, rest);
      case Memory => ScanTaggedWord(kind, w, rest);
      case Opcode => ScanOpcodeWord(w, rest);
      case Comma =>
    }
  }

  /** What the printed text relies on from a scanner table: a word of one of the token
      shapes above, ended as `WordOf` demands, is lexed as one token of that kind. */
  ghost predicate LexesWords(table: seq<Rule>) {
    forall kind, w, rest {:trigger WordOf(kind, w, rest)} ::
      WordOf(kind, w, rest) ==> Lex(table, w + rest) == Lexeme(kind, Some(w), rest)
  }

  lemma MatchboxLexesWords()
    ensures LexesWords(MatchboxTable)
  {
    forall kind, w, rest | WordOf(kind, w, rest)
      ensures Lex(MatchboxTable, w + rest) == Lexeme(kind, Some(w), rest)
    {
      var t := w + rest;
      assert t[0] == w[0];
      assert Span(Blank, t) == 0;
      assert AfterBlanks(t) == t;
      MatchboxLex(t);
      ScanWord(kind, w, rest);
      assert t[..|w|] == w && t[|w|..] == rest;
    }
  }

  /** A word of one of the token shapes, ended by what follows it, is one token. */
  lemma TokensOfWord(table: seq<Rule>, kind: Kind, w: string, rest: string, tail: seq<Token>)
    requires LexesWords(table)
    requires WordOf(kind, w, rest) && Tokens(table, rest) == tail
    ensures Tokens(table, w + rest) == [Token(kind, w)] + tail
  {
    assert Lex(table, w + rest) == Lexeme(kind, Some(w), rest);
  }

  lemma TokensSkipBlank(table: seq<Rule>, s: string, tail: seq<Token>)
    requires Tokens(table, s) == tail
    ensures Tokens(table, " " + s) == tail
  {
    LexSkipsBlank(table, ' ', s);
  }

  function KindOf(t: OperandType): Kind {
    match t
    case I => Immediate
    case R => Register
    case M => Memory
  }

  /** An operand as `toString` prints it: the numeral, behind its letter unless immediate. */
  function OperandText(t: OperandType, n: nat): string {
    (if t == I then "" else ShowType(Some(t))) + DecimalString(n)
  }

  /** A printed operand is a word of its token kind, whatever non-digit follows it. */
  lemma OperandWord(t: OperandType, n: nat, rest: string)
    requires |rest| == 0 || !InClass(Digit, rest[0])
    ensures WordOf(KindOf(t), OperandText(t, n), rest)
  {
    var d := DecimalString(n);
    var w := OperandText(t, n);
    if t == I {
      assert w == d;
    } else {
      assert w[1..] == d;
      assert AllIn(Digit, w, 1) by {
        forall k | 1 <= k < |w| ensures InClass(Digit, w[k]) { assert w[k] == d[k - 1]; }
      }
    }
  }

  /** A printed operand is one token of its kind. */
  lemma TokensOfOperand(table: seq<Rule>, t: OperandType, n: nat, rest: string, tail: seq<Token>)
    requires LexesWords(table)
    requires |rest| == 0 || !InClass(Digit, rest[0])
    requires Tokens(table, rest) == tail
    ensures Tokens(table, OperandText(t, n) + rest) == [Token(KindOf(t), OperandText(t, n))] + tail
  {
    OperandWord(t, n, rest);
    TokensOfWord(table, KindOf(t), OperandText(t, n), rest, tail);
  }

  lemma OperandNumber(t: OperandType, n: nat)
    ensures NumberToken(Token(KindOf(t), OperandText(t, n)))
    ensures Number(Token(KindOf(t), OperandText(t, n))) == n
  {
    var w := OperandText(t, n);
    OperandWord(t, n, []);
    if t != I {
      assert w[1..] == DecimalString(n);
    } else {
      assert w == DecimalString(n);
    }
  }

  /** The tokens of a printable instruction's text. */
  function PrintedTokens(i: Instr): seq<Token>
    requires Printable(i)
  {
    [Token(Opcode, i.opcode.value), Token(KindOf(i.srcType.value), OperandText(i.srcType.value, i.src.value))] +
    (if i.destType.None? then []
     else [Token(Comma, ","), Token(KindOf(i.destType.value), OperandText(i.destType.value, i.dest.value))])
  }

  lemma PrintedParts(i: Instr)
    requires Printable(i)
    ensures SourcePart(i) == OperandText(i.srcType.value, i.src.value)
    ensures i.destType.Some? ==> DestPart(i) == "," + (" " + OperandText(i.destType.value, i.dest.value))
    ensures Render(i) == i.opcode.value + (" " + (SourcePart(i) + DestPart(i)))
  {
  }

  lemma PairDisplay<T>(a: T, b: T)
    ensures [a] + [b] == [a, b]
  {
  }

  lemma PairThen<T>(a: T, b: T, tail: seq<T>)
    ensures [a] + ([b] + tail) == [a, b] + tail
  {
  }

  /** A word, a blank and a printed operand are two tokens. */
  lemma TokensOfWordThenOperand(table: seq<Rule>, kind: Kind, x: string, t: OperandType, n: nat)
    requires LexesWords(table)
    requires WordOf(kind, x, " " + OperandText(t, n))
    ensures Tokens(table, x + (" " + OperandText(t, n))) ==
      [Token(kind, x), Token(KindOf(t), OperandText(t, n))]
  {
    var w := OperandText(t, n);
    var tok := Token(KindOf(t), w);
    var e: string := [];
    assert Tokens(table, e) == [];
    TokensOfOperand(table, t, n, e, []);
    assert w + e == w;
    TokensSkipBlank(table, w, [tok]);
    TokensOfWord(table, kind, x, " " + w, [tok]);
    PairDisplay(Token(kind, x), tok);
  }

  lemma TokensOfDestPart(table: seq<Rule>, i: Instr)
    requires LexesWords(table)
    requires Printable(i)
    ensures Tokens(table, DestPart(i)) == PrintedTokens(i)[2..]
  {
    PrintedParts(i);
    var ts := PrintedTokens(i);
    if i.destType.Some? {
      TokensOfWordThenOperand(table, Comma, ",", i.destType.value, i.dest.value);
      assert ts[2..] == [Token(Comma, ","), Token(KindOf(i.destType.value), OperandText(i.destType.value, i.dest.value))];
    } else {
      assert DestPart(i) == "";
      assert ts[2..] == [];
      assert Tokens(table, "") == [];
    }
  }

  /** An opcode followed by a blank is one token. */
  lemma TokensOfOpcode(table: seq<Rule>, op: string, x: string, tail: seq<Token>)
    requires LexesWords(table)
    requires |op| > 0 && AllIn(Letter, op, 0)
    requires Tokens(table, x) == tail
    ensures Tokens(table, op + (" " + x)) == [Token(Opcode, op)] + tail
  {
    TokensSkipBlank(table, x, tail);
    TokensOfWord(table, Opcode, op, " " + x, tail);
  }

  /** The tokens of an opcode, a blank, an operand and a rest that starts with a comma or is empty. */
  lemma TokensOfPrintedLine(table: seq<Rule>, op: string, t: OperandType, n: nat, destPart: string, tail: seq<Token>)
    requires LexesWords(table)
    requires |op| > 0 && AllIn(Letter, op, 0)
    requires |destPart| == 0 || destPart[0] == ','
    requires Tokens(table, destPart) == tail
    ensures Tokens(table, op + (" " + (OperandText(t, n) + destPart))) ==
      [Token(Opcode, op), Token(KindOf(t), OperandText(t, n))] + tail
  {
    var tok := Token(KindOf(t), OperandText(t, n));
    TokensOfOperand(table, t, n, destPart, tail);
    TokensOfOpcode(table, op, OperandText(t, n) + destPart, [tok] + tail);
    PairThen(Token(Opcode, op), tok, tail);
  }

  /** The text `toString` prints for a printable instruction is lexed as its printed tokens. */
  lemma TokensOfRender(table: seq<Rule>, i: Instr)
    requires LexesWords(table)
    requires Printable(i)
    ensures Tokens(table, Render(i)) == PrintedTokens(i)
  {
    PrintedParts(i);
    TokensOfDestPart(table, i);
    var ts := PrintedTokens(i);
    assert |DestPart(i)| == 0 || DestPart(i)[0] == ',';
    TokensOfPrintedLine(table, i.opcode.value, i.srcType.value, i.src.value, DestPart(i), ts[2..]);
  }

  /** The printed operands carry the instruction's numbers. */
  lemma PrintedTokensNumbers(i: Instr)
    requires Printable(i)
    ensures Number(PrintedTokens(i)[1]) == i.src.value
    ensures i.destType.Some? ==> Number(PrintedTokens(i)[3]) == i.dest.value
  {
    OperandNumber(i.srcType.value, i.src.value);
    if i.destType.Some? {
      OperandNumber(i.destType.value, i.dest.value);
    }
  }

  lemma ParsePrintedTokens(i: Instr)
    requires Printable(i)
    ensures ParseTokens(PrintedTokens(i)) == i
  {
    PrintedTokensNumbers(i);
    var ts := PrintedTokens(i);
    var op := Unset.(opcode := i.opcode);
    var withSrc := op.(srcType := i.srcType, src := i.src);
    assert ParseTokens(ts) == ParseDest(withSrc, ts[2..]);
    if i.destType.Some? {
      assert ts[2..] == [ts[2], ts[3]];
    } else {
      assert ts[2..] == [];
    }
  }

  /** Round trip: `parse(toString())` gives back the same five fields. */
  lemma ParseRender(i: Instr)
    requires Printable(i)
    ensures ParseLine(Render(i)) == i
  {
    MatchboxLexesWords();
    TokensOfRender(MatchboxTable, i);
    ParsePrintedTokens(i);
  }

  // ---------------------------------------------------------------------
  // execute: the register and memory dictionaries
  // ---------------------------------------------------------------------

  /**
   * A key of the memory dictionary.  `mem[this.dest]` with `dest` undefined
   * writes the property named "undefined", so that key is representable.
   */
  datatype Key = Addr(n: nat) | Undefined

  function KeyOf(o: Option<nat>): Key {
    match o
    case Some(n) => Addr(n)
    case None => Undefined
  }

  /** `m[k] || 0`: an unset cell reads as 0. */
  function Get<K>(m: map<K, int>, k: K): int {
    if k in m then m[k] else 0
  }

  /** The outcome of `execute`: its return value and the two dictionaries afterwards. */
  datatype Effect = Effect(ok: bool, reg: map<nat, int>, mem: map<Key, int>)

  /** The value `MOV` reads, or None for an undefined source type. */
  function SourceValue(i: Instr, reg: map<nat, int>, mem: map<Key, int>): Option<int>
    requires WellFormed(i)
  {
    match i.srcType
    case None => None
    case Some(I) => Some(i.src.value)
    case Some(R) => Some(Get(reg, i.src.value))
    case Some(M) => Some(Get(mem, Addr(i.src.value)))
  }

  /**
   * `execute` as written: the memory branch tests `srcType === 'M'` where the
   * destination type is meant (see `Step` for the corrected version).
   */
  function StepAsWritten(i: Instr, reg: map<nat, int>, mem: map<Key, int>): (e: Effect)
    requires WellFormed(i)
  {
    if i.opcode != Some("MOV") then Effect(false, reg, mem)
    else match SourceValue(i, reg, mem)
      case None => Effect(false, reg, mem)
      case Some(v) =>
        if i.destType == Some(R) then Effect(true, reg[i.dest.value := v], mem)
        else if i.srcType == Some(M) then Effect(true, reg, mem[KeyOf(i.dest) := v])
        else Effect(false, reg, mem)
  }

  /**
   * The outcome of `execute` as written: it succeeds exactly for a MOV with a
   * source whose destination is a register or whose SOURCE is memory; a
   * success writes exactly one cell with the value read (unset cells read as
   * 0) and a failure changes nothing.
   */
  lemma StepAsWrittenOutcome(i: Instr, reg: map<nat, int>, mem: map<Key, int>)
    requires WellFormed(i)
    ensures var e := StepAsWritten(i, reg, mem);
      && (e.ok <==> i.opcode == Some("MOV") && i.srcType.Some? && (i.destType == Some(R) || i.srcType == Some(M)))
      && (!e.ok ==> e.reg == reg && e.mem == mem)
      && (e.ok && i.destType == Some(R) ==>
            e.reg == reg[i.dest.value := SourceValue(i, reg, mem).value] && e.mem == mem)
      && (e.ok && i.destType != Some(R) ==>
            e.reg == reg && e.mem == mem[KeyOf(i.dest) := SourceValue(i, reg, mem).value])
  {
  }

  /** `execute`, with the memory branch (src/matchbox.js:180) testing `destType === 'M'` as evidently intended. */
  function Step(i: Instr, reg: map<nat, int>, mem: map<Key, int>): (e: Effect)
    requires WellFormed(i)
  {
    if i.opcode != Some("MOV") then Effect(false, reg, mem)
    else match SourceValue(i, reg, mem)
      case None => Effect(false, reg, mem)
      case Some(v) =>
        if i.destType == Some(R) then Effect(true, reg[i.dest.value := v], mem)
        else if i.destType == Some(M) then Effect(true, reg, mem[Addr(i.dest.value) := v])
        else Effect(false, reg, mem)
  }

  /**
   * MOV: it succeeds exactly when there is a source and a register or memory
   * destination, writes the value read (unset cells read as 0) to that
   * destination and nothing else, never writes the "undefined" memory key,
   * and a failure changes nothing.
   */
  lemma StepMovesToDest(i: Instr, reg: map<nat, int>, mem: map<Key, int>)
    requires WellFormed(i)
    ensures var e := Step(i, reg, mem);
      && (e.ok <==> i.opcode == Some("MOV") && i.srcType.Some? && (i.destType == Some(R) || i.destType == Some(M)))
      && (!e.ok ==> e.reg == reg && e.mem == mem)
      && (e.ok && i.destType == Some(R) ==>
            e.reg == reg[i.dest.value := SourceValue(i, reg, mem).value] && e.mem == mem)
      && (e.ok && i.destType == Some(M) ==>
            e.reg == reg && e.mem == mem[Addr(i.dest.value) := SourceValue(i, reg, mem).value])
      && (Undefined !in mem ==> Undefined !in e.mem)
  {
  }

  /** The two agree on every instruction except a MOV whose source and destination types disagree with src/matchbox.js:180. */
  lemma AsWrittenAgreesWithStep(i: Instr, reg: map<nat, int>, mem: map<Key, int>)
    requires WellFormed(i)
    ensures (StepAsWritten(i, reg, mem) == Step(i, reg, mem)) <==>
      !(i.opcode == Some("MOV") && i.srcType.Some? && i.destType != Some(R) && ((i.srcType == Some(M)) != (i.destType == Some(M))))
  {
    if i.opcode == Some("MOV") && i.srcType.Some? && i.destType != Some(R) {
      if (i.srcType == Some(M)) != (i.destType == Some(M)) {
        assert StepAsWritten(i, reg, mem).ok != Step(i, reg, mem).ok;
      }
    }
  }

  /** As written, `MOV 5, M1` is rejected although it is a legal move to memory. */
  lemma MovImmediateToMemoryRejected()
    ensures var i := Instr(Some("MOV"), Some(I), Some(5), Some(M), Some(1));
      !StepAsWritten(i, map[], map[]).ok && Step(i, map[], map[]) == Effect(true, map[], map[Addr(1) := 5])
  {
  }

  /** As written, `MOV M0` with no destination succeeds and writes the "undefined" memory key. */
  lemma MovWithoutDestinationAccepted()
    ensures var i := Instr(Some("MOV"), Some(M), Some(0), None, None);
      StepAsWritten(i, map[], map[]) == Effect(true, map[], map[Undefined := 0]) && !Step(i, map[], map[]).ok
  {
  }

  // ---------------------------------------------------------------------
  // The objects
  // ---------------------------------------------------------------------

  /** A dictionary object (`{}`); `Instruction.Execute` assigns its cells in place. */
  class Cells<K(==)> {
    var entries: map<K, int>

    constructor ()
      ensures entries == map[]
    {
      entries := map[];
    }
  }

  lemma ParseOpcodeStep(ts: seq<Token>)
    ensures |ts| > 0 && ts[0].kind == Opcode ==>
      ParseTokens(ts) == ParseSource(Unset.(opcode := Some(ts[0].text)), ts[1..])
    ensures !(|ts| > 0 && ts[0].kind == Opcode) ==> ParseTokens(ts) == Unset
  {
  }

  lemma ParseSourceStep(i: Instr, ts: seq<Token>)
    ensures |ts| > 0 && IsOperandKind(ts[0].kind) ==>
      ParseSource(i, ts) == ParseDest(i.(srcType := Some(TypeOf(ts[0].kind)), src := Some(Number(ts[0]))), ts[1..])
    ensures !(|ts| > 0 && IsOperandKind(ts[0].kind)) ==> ParseSource(i, ts) == ParseDest(i, ts)
  {
  }

  lemma ParseDestStep(i: Instr, ts: seq<Token>)
    ensures |ts| > 1 && ts[0].text == "," && (ts[1].kind == Register || ts[1].kind == Memory) ==>
      ParseDest(i, ts) == i.(destType := Some(TypeOf(ts[1].kind)), dest := Some(Number(ts[1])))
    ensures !(|ts| > 1 && ts[0].text == "," && (ts[1].kind == Register || ts[1].kind == Memory)) ==>
      ParseDest(i, ts) == i
  {
  }

  // ---------------------------------------------------------------------
  // parse, one scanner state at a time
  // ---------------------------------------------------------------------

  /** A scanner state reports EOF exactly when it holds no token. */
  predicate Sound(l: Lexeme) {
    l.token.None? <==> l.kind == EOF
  }

  /** No rule of the table produces the EOF type (as in `matchboxScanner`). */
  predicate NoEOFRule(table: seq<Rule>) {
    forall j :: 0 <= j < |table| ==> table[j].kind != EOF
  }

  lemma {:induction false} LexFromSound(table: seq<Rule>, t: string, from: nat)
    requires NoEOFRule(table) && from <= |table|
    ensures Sound(LexFrom(table, t, from))
    decreases |table| - from
  {
    if |t| > 0 && from < |table| && MatchLength(table[from].pattern, t).None? {
      LexFromSound(table, t, from + 1);
    }
  }

  lemma LexSound(table: seq<Rule>, s: string)
    requires NoEOFRule(table)
    ensures Sound(Lex(table, s))
  {
    LexFromSound(table, AfterBlanks(s), 0);
  }

  function TokenOf(l: Lexeme): Token
    requires l.token.Some?
  {
    Token(l.kind, l.token.value)
  }

  /** The destination part read off the scanner state at the comma (`c`) and the one after it (`d`). */
  function ParseDestFrom(i: Instr, c: Lexeme, d: Lexeme): Instr
    requires Sound(d)
  {
    if c.token == Some(",") && (d.kind == Register || d.kind == Memory) then
      i.(destType := Some(TypeOf(d.kind)), dest := Some(Number(TokenOf(d))))
    else i
  }

  /** The operands read off the scanner states at the source (`l1`) and the two after it. */
  function ParseOperandsFrom(i: Instr, l1: Lexeme, l2: Lexeme, l3: Lexeme): Instr
    requires Sound(l1) && Sound(l2) && Sound(l3)
  {
    if IsOperandKind(l1.kind) then
      ParseDestFrom(i.(srcType := Some(TypeOf(l1.kind)), src := Some(Number(TokenOf(l1)))), l2, l3)
    else ParseDestFrom(i, l1, l2)
  }

  /** `parse` read off the first four scanner states of a line. */
  function ParseFrom(l0: Lexeme, l1: Lexeme, l2: Lexeme, l3: Lexeme): Instr
    requires Sound(l1) && Sound(l2) && Sound(l3)
  {
    if l0.kind != Opcode then Unset
    else ParseOperandsFrom(Unset.(opcode := l0.token), l1, l2, l3)
  }

  /**
   * The fields `parse(str)` leaves behind when its scanner has rule table
   * `table`: it looks at no more than the first four scanner states of the line.
   */
  function ParseWith(table: seq<Rule>, str: string): Instr
    requires NoEOFRule(table)
  {
    var l0 := Lex(table, str);
    var l1 := Lex(table, l0.rest);
    var l2 := Lex(table, l1.rest);
    var l3 := Lex(table, l2.rest);
    LexSound(table, l0.rest);
    LexSound(table, l1.rest);
    LexSound(table, l2.rest);
    ParseFrom(l0, l1, l2, l3)
  }

  /** The token stream that begins with the token of scanner state `l`, if any. */
  function Cons(l: Lexeme, tail: seq<Token>): seq<Token> {
    if l.token.None? then [] else [TokenOf(l)] + tail
  }

  /** The token stream starts with the current token and continues with the stream after it. */
  lemma TokensFrom(table: seq<Rule>, s: string)
    ensures var l := Lex(table, s); Tokens(table, s) == Cons(l, Tokens(table, l.rest))
  {
  }

  lemma DestFromStream(i: Instr, c: Lexeme, d: Lexeme, tail: seq<Token>)
    requires Sound(d)
    ensures ParseDest(i, Cons(c, Cons(d, tail))) == ParseDestFrom(i, c, d)
  {
    ParseDestStep(i, Cons(c, Cons(d, tail)));
  }

  lemma SourceFromStream(i: Instr, b: Lexeme, c: Lexeme, d: Lexeme, tail: seq<Token>)
    requires Sound(b) && Sound(c) && Sound(d)
    ensures ParseSource(i, Cons(b, Cons(c, Cons(d, tail)))) ==
      if IsOperandKind(b.kind) then
        ParseDestFrom(i.(srcType := Some(TypeOf(b.kind)), src := Some(Number(TokenOf(b)))), c, d)
      else ParseDestFrom(i, b, c)
  {
    var ts := Cons(b, Cons(c, Cons(d, tail)));
    ParseSourceStep(i, ts);
    if IsOperandKind(b.kind) {
      assert ts[1..] == Cons(c, Cons(d, tail));
      DestFromStream(i.(srcType := Some(TypeOf(b.kind)), src := Some(Number(TokenOf(b)))), c, d, tail);
    } else {
      DestFromStream(i, b, c, Cons(d, tail));
    }
  }

  lemma ParseFromStream(l0: Lexeme, l1: Lexeme, l2: Lexeme, l3: Lexeme, tail: seq<Token>)
    requires Sound(l0) && Sound(l1) && Sound(l2) && Sound(l3)
    ensures ParseTokens(Cons(l0, Cons(l1, Cons(l2, Cons(l3, tail))))) == ParseFrom(l0, l1, l2, l3)
  {
    var ts := Cons(l0, Cons(l1, Cons(l2, Cons(l3, tail))));
    ParseOpcodeStep(ts);
    if l0.kind == Opcode {
      assert ts[1..] == Cons(l1, Cons(l2, Cons(l3, tail)));
      SourceFromStream(Unset.(opcode := l0.token), l1, l2, l3, tail);
    }
  }

  /** `parse` reads the same fields as the token-stream definition `ParseTokens`. */
  lemma ParseWithTokens(table: seq<Rule>, str: string)
    requires NoEOFRule(table)
    ensures ParseWith(table, str) == ParseTokens(Tokens(table, str))
  {
    var l0 := Lex(table, str);
    var l1 := Lex(table, l0.rest);
    var l2 := Lex(table, l1.rest);
    var l3 := Lex(table, l2.rest);
    LexSound(table, str);
    LexSound(table, l0.rest);
    LexSound(table, l1.rest);
    LexSound(table, l2.rest);
    TokensFrom(table, str);
    TokensFrom(table, l0.rest);
    TokensFrom(table, l1.rest);
    TokensFrom(table, l2.rest);
    ParseFromStream(l0, l1, l2, l3, Tokens(table, l3.rest));
  }

  class Instruction {
    var opcode: Option<string>
    var srcType: Option<OperandType>
    var src: Option<nat>
    var destType: Option<OperandType>
    var dest: Option<nat>

    function View(): Instr
      reads this
    {
      Instr(opcode, srcType, src, destType, dest)
    }

    ghost predicate Valid()
      reads this
    {
      WellFormed(View())
    }

    /** `new Instruction()`: no field is set yet. */
    constructor ()
      ensures View() == Unset
    {
      opcode, srcType, src, destType, dest := None, None, None, None, None;
    }

    /** `init(cfg)`: take the five fields from a configuration. */
    method Init(cfg: Instr)
      requires WellFormed(cfg)
      modifies this
      ensures View() == cfg
    {
      opcode, srcType, src, destType, dest := cfg.opcode, cfg.srcType, cfg.src, cfg.destType, cfg.dest;
    }

    /**
     * `parse(str)`: clear the fields, reset the shared scanner `s`
     * (`matchboxScanner`) to `str` and read the fields from the first tokens
     * of the line; returns the object itself.
     */
    method Parse(s: Scanner, str: string) returns (self: Instruction)
      requires NoEOFRule(s.table)
      modifies this, s
      ensures self == this && View() == ParseTokens(Tokens(s.table, str))
      ensures s.error == None
    {
      opcode, srcType, src, destType, dest := None, None, None, None, None;
      s.Reset(str);
      ReadFields(s, str);
      ParseWithTokens(s.table, str);
      return this;
    }

    /** The body of `parse` after `s.reset(str)`: read the fields off the scanner, state by state. */
    method ReadFields(s: Scanner, ghost str: string)
      requires NoEOFRule(s.table)
      requires View() == Unset && s.Current() == Lex(s.table, str) && s.error == None
      modifies this, s
      ensures View() == ParseWith(s.table, str)
      ensures s.error == None
    {
      ghost var l0 := s.Current();
      ghost var l1 := Lex(s.table, l0.rest);
      ghost var l2 := Lex(s.table, l1.rest);
      ghost var l3 := Lex(s.table, l2.rest);
      LexSound(s.table, l0.rest);
      LexSound(s.table, l1.rest);
      LexSound(s.table, l2.rest);
      if s.OnType(Opcode) {
        opcode := s.token;
        ghost var op := View();
        s.Scan();
        // `c` and `d`: the scanner states at the comma and at the destination.
        ghost var c, d := l1, l2;
        if s.OnType(Immediate) || s.OnType(Register) || s.OnType(Memory) {
          srcType := Some(TypeOf(s.tokenType));
          src := Some(Number(Token(s.tokenType, s.token.value)));
          assert View() == op.(srcType := Some(TypeOf(l1.kind)), src := Some(Number(TokenOf(l1))));
          s.Scan();
          c, d := l2, l3;
        }
        assert ParseFrom(l0, l1, l2, l3) == ParseDestFrom(View(), c, d);
        ReadDest(s, c, d);
      }
    }

    /** The destination part of `parse`: an optional ',' and a register or memory operand. */
    method ReadDest(s: Scanner, ghost c: Lexeme, ghost d: Lexeme)
      requires s.Current() == c && s.error == None
      requires d == Lex(s.table, c.rest) && Sound(d)
      modifies this, s
      ensures View() == ParseDestFrom(old(View()), c, d)
      ensures s.error == None
    {
      ghost var head := View();
      var comma := s.Consume(",");
      if comma {
        assert s.Current() == d;
        if s.OnType(Register) || s.OnType(Memory) {
          destType := Some(TypeOf(s.tokenType));
          dest := Some(Number(Token(s.tokenType, s.token.value)));
          assert View() == head.(destType := Some(TypeOf(d.kind)), dest := Some(Number(TokenOf(d))));
          s.Scan();
        }
      }
    }

    /**
     * `execute(reg, mem)`: only MOV is implemented; returns false (the alert)
     * on anything it rejects.  As in the program, the memory branch tests the
     * SOURCE type and writes the cell named by the destination, which is the
     * "undefined" key when there is none (`StepAsWritten`).
     */
    method Execute(reg: Cells<nat>, mem: Cells<Key>) returns (ok: bool)
      requires Valid()
      modifies reg, mem
      ensures Effect(ok, reg.entries, mem.entries) == StepAsWritten(View(), old(reg.entries), old(mem.entries))
    {
      if opcode == Some("MOV") {
        var val: int;
        if srcType == Some(I) {
          val := src.value;
        } else if srcType == Some(R) {
          val := Get(reg.entries, src.value);
        } else if srcType == Some(M) {
          val := Get(mem.entries, Addr(src.value));
        } else {
          return false;  // "Illegal srcType"
        }
        if destType == Some(R) {
          reg.entries := reg.entries[dest.value := val];
        } else if srcType == Some(M) {
          mem.entries := mem.entries[KeyOf(dest) := val];
        } else {
          return false;  // "Illegal destType"
        }
        return true;
      } else {
        return false;  // "Illegal opcode"
      }
    }

    /** `toString()`: for a printable instruction, text that `parse` reads back to the same fields. */
    function ToString(): (r: string)
      reads this
      ensures Printable(View()) ==> ParseLine(r) == View()
    {
      var i := View();
      assert Printable(i) ==> ParseLine(Render(i)) == i by {
        if Printable(i) {
          ParseRender(i);
        }
      }
      Render(i)
    }
  }
}
