// A Matchbox program: `parseCode` turns its text into instructions, one per
// non-empty line, and `interpret` runs them in order from empty registers and
// memory until one fails (src/matchbox.js:202-230).

module Program {
  import opened Wrappers
  import opened Lexer
  import opened Instructions

  // ---------------------------------------------------------------------
  // Lines
  // ---------------------------------------------------------------------

  predicate NoNewline(l: string) {
    forall k :: 0 <= k < |l| ==> l[k] != '\n'
  }

  /** `str.split("\n")`: the pieces between newlines, at least one. */
  function Split(s: string): seq<string>
    decreases |s|
  {
    if |s| == 0 then [""]
    else
      var r := Split(s[1..]);
      if s[0] == '\n' then [""] + r else [[s[0]] + r[0]] + r[1..]
  }

  /** `lines.join("\n")`. */
  function Join(lines: seq<string>): string
    requires |lines| > 0
  {
    if |lines| == 1 then lines[0] else lines[0] + "\n" + Join(lines[1..])
  }

  /** Split gives at least one piece, and no piece holds a newline. */
  lemma {:induction false} SplitLines(s: string)
    ensures |Split(s)| > 0
    ensures forall k :: 0 <= k < |Split(s)| ==> NoNewline(Split(s)[k])
    decreases |s|
  {
    if |s| > 0 {
      SplitLines(s[1..]);
      var r := Split(s[1..]);
      if s[0] != '\n' {
        assert NoNewline(r[0]);
        assert NoNewline([s[0]] + r[0]);
        assert Split(s) == [[s[0]] + r[0]] + r[1..];
      }
    }
  }

  /** Joining the pieces gives the text back. */
  lemma {:induction false} JoinSplit(s: string)
    ensures |Split(s)| > 0 && Join(Split(s)) == s
    decreases |s|
  {
    SplitLines(s);
    if |s| > 0 {
      JoinSplit(s[1..]);
      var r := Split(s[1..]);
      if s[0] == '\n' {
        assert Join(Split(s)) == "" + "\n" + Join(r);
      } else if |r| == 1 {
        assert Join(Split(s)) == [s[0]] + r[0];
      } else {
        assert Join(Split(s)) == ([s[0]] + r[0]) + "\n" + Join(r[1..]);
        assert Join(r) == r[0] + "\n" + Join(r[1..]);
      }
      assert s == [s[0]] + s[1..];
    }
  }

  /** A piece without newlines in front of a newline is split off whole. */
  lemma {:induction false} SplitFront(l: string, rest: string)
    requires NoNewline(l)
    ensures Split(l + "\n" + rest) == [l] + Split(rest)
    decreases |l|
  {
    if |l| == 0 {
      assert l + "\n" + rest == "\n" + rest;
      assert ("\n" + rest)[1..] == rest;
    } else {
      SplitFront(l[1..], rest);
      assert (l + "\n" + rest)[1..] == l[1..] + "\n" + rest;
      assert [l[0]] + l[1..] == l;
    }
  }

  lemma {:induction false} SplitNoNewline(l: string)
    requires NoNewline(l)
    ensures Split(l) == [l]
    decreases |l|
  {
    if |l| > 0 {
      SplitNoNewline(l[1..]);
      assert [l[0]] + l[1..] == l;
    }
  }

  /** Splitting a join of newline-free pieces gives the pieces back. */
  lemma {:induction false} SplitJoin(lines: seq<string>)
    requires |lines| > 0 && forall k :: 0 <= k < |lines| ==> NoNewline(lines[k])
    ensures Split(Join(lines)) == lines
    decreases |lines|
  {
    if |lines| == 1 {
      SplitNoNewline(lines[0]);
    } else {
      SplitJoin(lines[1..]);
      SplitFront(lines[0], Join(lines[1..]));
      assert [lines[0]] + lines[1..] == lines;
    }
  }

  /** The lines `parseCode` keeps: the non-empty ones, in order. */
  function NonEmpty(lines: seq<string>): seq<string>
  {
    if |lines| == 0 then []
    else
      var last := lines[|lines| - 1];
      NonEmpty(lines[..|lines| - 1]) + (if last == "" then [] else [last])
  }

  /** NonEmpty keeps every non-empty line, comment lines starting with ';' included, and only those. */
  lemma {:induction false} NonEmptyKeeps(lines: seq<string>, l: string)
    ensures l in NonEmpty(lines) <==> l in lines && l != ""
    decreases |lines|
  {
    if |lines| > 0 {
      var init := lines[..|lines| - 1];
      NonEmptyKeeps(init, l);
      assert lines == init + [lines[|lines| - 1]];
    }
  }

  // ---------------------------------------------------------------------
  // parseCode
  // ---------------------------------------------------------------------

  /** Every line that `parse` reads yields a well-formed instruction. */
  lemma ParseLineWellFormed(str: string)
    ensures WellFormed(ParseLine(str))
  {
    ParseTokensFields(Tokens(MatchboxTable, str));
  }

  /** One more line of input keeps one more line exactly when it is non-empty. */
  lemma NonEmptySnoc(lines: seq<string>, i: nat)
    requires i < |lines|
    ensures NonEmpty(lines[..i + 1]) == NonEmpty(lines[..i]) + (if lines[i] == "" then [] else [lines[i]])
  {
    assert lines[..i + 1][..i] == lines[..i];
  }

  /** A fresh instruction, parsed from `line` with the shared scanner. */
  method ParseOne(s: Scanner, line: string) returns (instr: Instruction)
    requires s.table == MatchboxTable
    modifies s
    ensures fresh(instr) && instr.View() == ParseLine(line)
  {
    assert NoEOFRule(s.table);
    instr := new Instruction();
    instr := instr.Parse(s, line);
  }

  /**
   * `parseCode(str)`: one fresh instruction per non-empty line, parsed with
   * the shared scanner `s` (`matchboxScanner`). Since `parse` returns the
   * instruction itself, which is never falsy, every such line is kept and the
   * "Syntax error" alert is never reached.
   */
  method ParseCode(s: Scanner, str: string) returns (code: seq<Instruction>)
    requires s.table == MatchboxTable
    modifies s
    ensures |code| == |NonEmpty(Split(str))|
    ensures forall k :: 0 <= k < |code| ==>
      fresh(code[k]) && code[k].View() == ParseLine(NonEmpty(Split(str))[k])
    ensures forall j, k :: 0 <= j < k < |code| ==> code[j] != code[k]
    ensures forall k :: 0 <= k < |code| ==> code[k].Valid()
  {
    var lines := Split(str);
    code := [];
    ghost var kept: seq<string> := [];
    ghost var index: map<Instruction, nat> := map[];
    var i := 0;
    while i < |lines|
      invariant 0 <= i <= |lines|
      invariant kept == NonEmpty(lines[..i])
      invariant |code| == |kept|
      invariant forall k :: 0 <= k < |code| ==>
        fresh(code[k]) && code[k] in index && index[code[k]] == k && code[k].View() == ParseLine(kept[k])
    {
      NonEmptySnoc(lines, i);
      if lines[i] != "" {
        var parsed := ParseOne(s, lines[i]);
        index := index[parsed := |code|];
        ghost var before := code;
        code := code + [parsed];
        kept := kept + [lines[i]];
        assert code[..|before|] == before && code[|before|] == parsed;
      }
      i := i + 1;
    }
    assert lines[..|lines|] == lines;
    forall k | 0 <= k < |code|
      ensures code[k].Valid()
    {
      ParseLineWellFormed(kept[k]);
    }
  }

  // ---------------------------------------------------------------------
  // interpret
  // ---------------------------------------------------------------------

  predicate AllWellFormed(code: seq<Instr>) {
    forall k :: 0 <= k < |code| ==> WellFormed(code[k])
  }

  /** Execute the instructions in order, as written, stopping at the first that fails. */
  function Run(code: seq<Instr>, reg: map<nat, int>, mem: map<Key, int>): Effect
    requires AllWellFormed(code)
    decreases |code|
  {
    if |code| == 0 then Effect(true, reg, mem)
    else
      var e := StepAsWritten(code[0], reg, mem);
      if !e.ok then e else Run(code[1..], e.reg, e.mem)
  }

  /** How many instructions `Run` executes: all of them, or up to and including the first that fails. */
  function Ran(code: seq<Instr>, reg: map<nat, int>, mem: map<Key, int>): nat
    requires AllWellFormed(code)
    decreases |code|
  {
    if |code| == 0 then 0
    else
      var e := StepAsWritten(code[0], reg, mem);
      if !e.ok then 1 else 1 + Ran(code[1..], e.reg, e.mem)
  }

  /**
   * Running a program in two parts: the second part runs, from the state the
   * first left, only when the first ran to its end.
   */
  lemma {:induction false} RunAppend(c1: seq<Instr>, c2: seq<Instr>, reg: map<nat, int>, mem: map<Key, int>)
    requires AllWellFormed(c1) && AllWellFormed(c2)
    ensures AllWellFormed(c1 + c2)
    ensures var e := Run(c1, reg, mem);
      Run(c1 + c2, reg, mem) == if e.ok then Run(c2, e.reg, e.mem) else e
    decreases |c1|
  {
    assert AllWellFormed(c1 + c2) by {
      forall k | 0 <= k < |c1 + c2| ensures WellFormed((c1 + c2)[k]) {
        if k < |c1| { assert (c1 + c2)[k] == c1[k]; } else { assert (c1 + c2)[k] == c2[k - |c1|]; }
      }
    }
    if |c1| == 0 {
      assert c1 + c2 == c2;
    } else {
      var e := StepAsWritten(c1[0], reg, mem);
      assert (c1 + c2)[0] == c1[0];
      assert (c1 + c2)[1..] == c1[1..] + c2;
      if e.ok {
        RunAppend(c1[1..], c2, e.reg, e.mem);
      }
    }
  }

  /**
   * The run stops right after the first failing instruction: a run that
   * succeeds ran every instruction, the instructions it ran decide
   * the outcome on their own, and on a failure the last of them failed from
   * the state the others left.
   */
  lemma {:induction false} RunStopsAtFailure(code: seq<Instr>, reg: map<nat, int>, mem: map<Key, int>)
    requires AllWellFormed(code)
    ensures var n, e := Ran(code, reg, mem), Run(code, reg, mem);
      && n <= |code|
      && (e.ok ==> n == |code|)
      && Run(code[..n], reg, mem) == e
      && (!e.ok ==>
            var before := Run(code[..n - 1], reg, mem);
            n > 0 && before.ok && !StepAsWritten(code[n - 1], before.reg, before.mem).ok &&
            e.reg == before.reg && e.mem == before.mem)
    decreases |code|
  {
    if |code| > 0 {
      var e := StepAsWritten(code[0], reg, mem);
      if e.ok {
        RunStopsAtFailure(code[1..], e.reg, e.mem);
        var n := Ran(code[1..], e.reg, e.mem);
        PrefixTail(code, n + 1);
        if !Run(code, reg, mem).ok {
          PrefixTail(code, n);
        }
      } else {
        StepAsWrittenOutcome(code[0], reg, mem);
        assert code[..1] == [code[0]];
        assert code[..0] == [];
      }
    }
  }

  /** Dropping the first element of a prefix is taking a prefix of the tail. */
  lemma PrefixTail<T>(s: seq<T>, n: nat)
    requires 0 < n <= |s|
    ensures s[..n][1..] == s[1..][..n - 1]
  {
  }

  /** The values a MOV program leaves are 0 or one of its own immediate operands. */
  predicate FromLiterals<K>(m: map<K, int>, code: seq<Instr>) {
    forall k :: k in m ==> m[k] == 0 || exists i :: 0 <= i < |code| && code[i].srcType == Some(I) && code[i].src == Some(m[k])
  }

  /** MOV only copies: every cell holds 0 or an immediate of the program, before and after a run. */
  lemma {:induction false} RunCopiesLiterals(code: seq<Instr>, all: seq<Instr>, reg: map<nat, int>, mem: map<Key, int>)
    requires AllWellFormed(code)
    requires forall k :: 0 <= k < |code| ==> code[k] in all
    requires FromLiterals(reg, all) && FromLiterals(mem, all)
    ensures FromLiterals(Run(code, reg, mem).reg, all) && FromLiterals(Run(code, reg, mem).mem, all)
    decreases |code|
  {
    if |code| > 0 {
      var i := code[0];
      assert i in all;
      StepAsWrittenOutcome(i, reg, mem);
      var e := StepAsWritten(i, reg, mem);
      if e.ok {
        var v := SourceValue(i, reg, mem).value;
        assert v == 0 || exists j :: 0 <= j < |all| && all[j].srcType == Some(I) && all[j].src == Some(v) by {
          if i.srcType == Some(I) {
            var j :| 0 <= j < |all| && all[j] == i;
          } else if i.srcType == Some(R) {
            if i.src.value in reg { }
          } else {
            if Addr(i.src.value) in mem { }
          }
        }
        assert FromLiterals(e.reg, all) && FromLiterals(e.mem, all);
        assert forall k :: 0 <= k < |code[1..]| ==> code[1..][k] in all by {
          forall k | 0 <= k < |code[1..]| ensures code[1..][k] in all { assert code[1..][k] == code[k + 1]; }
        }
        RunCopiesLiterals(code[1..], all, e.reg, e.mem);
      }
    }
  }

  /** Every memory cell holds 0. */
  predicate AllZero(mem: map<Key, int>) {
    forall k :: k in mem ==> mem[k] == 0
  }

  /**
   * As written, memory is only ever written with a value read from memory
   * (src/matchbox.js:180 tests the source type), so a program that starts from empty
   * memory leaves nothing but zeros there, whatever it moves into registers.
   */
  lemma {:induction false} MemoryStaysZero(code: seq<Instr>, reg: map<nat, int>, mem: map<Key, int>)
    requires AllWellFormed(code) && AllZero(mem)
    ensures AllZero(Run(code, reg, mem).mem)
    decreases |code|
  {
    if |code| > 0 {
      var i := code[0];
      StepAsWrittenOutcome(i, reg, mem);
      var e := StepAsWritten(i, reg, mem);
      if e.ok {
        if i.destType != Some(R) {
          assert i.srcType == Some(M);
          assert Get(mem, Addr(i.src.value)) == 0;
        }
        assert AllZero(e.mem);
        assert AllWellFormed(code[1..]) by {
          forall k | 0 <= k < |code[1..]| ensures WellFormed(code[1..][k]) { assert code[1..][k] == code[k + 1]; }
        }
        MemoryStaysZero(code[1..], e.reg, e.mem);
      }
    }
  }

  /** So `MOV 5, M1` aborts a program and stores nothing: memory 1 is never set to 5. */
  lemma MovImmediateToMemoryAborts()
    ensures var code := [Instr(Some("MOV"), Some(I), Some(5), Some(M), Some(1))];
      AllWellFormed(code) && Run(code, map[], map[]) == Effect(false, map[], map[]) && Ran(code, map[], map[]) == 1
  {
    var i := Instr(Some("MOV"), Some(I), Some(5), Some(M), Some(1));
    assert StepAsWritten(i, map[], map[]) == Effect(false, map[], map[]);
  }

  /** One executed instruction advances the run by one step, or ends it with that step's failure. */
  lemma RunAdvance(v: seq<Instr>, i: nat, reg: map<nat, int>, mem: map<Key, int>, e: Effect)
    requires AllWellFormed(v) && i < |v|
    requires e == StepAsWritten(v[i], reg, mem)
    ensures AllWellFormed(v[i..]) && AllWellFormed(v[i + 1..])
    ensures e.ok ==> Run(v[i..], reg, mem) == Run(v[i + 1..], e.reg, e.mem)
    ensures e.ok ==> Ran(v[i..], reg, mem) == 1 + Ran(v[i + 1..], e.reg, e.mem)
    ensures !e.ok ==> Run(v[i..], reg, mem) == e && Ran(v[i..], reg, mem) == 1
  {
    assert v[i..][0] == v[i] && v[i..][1..] == v[i + 1..];
  }

  function Views(code: seq<Instruction>): (v: seq<Instr>)
    reads set k | 0 <= k < |code| :: code[k]
    ensures |v| == |code| && forall k :: 0 <= k < |code| ==> v[k] == code[k].View()
  {
    if |code| == 0 then [] else Views(code[..|code| - 1]) + [code[|code| - 1].View()]
  }

  /**
   * `interpret(code)`: fresh, empty registers and memory; execute each
   * instruction in turn and stop at the first that returns false (the
   * "Aborted" alert). Returns whether the run completed, how many
   * instructions executed, and the dictionaries it left.
   */
  method Interpret(code: seq<Instruction>) returns (completed: bool, executed: nat, reg: Cells<nat>, mem: Cells<Key>)
    requires forall k :: 0 <= k < |code| ==> code[k].Valid()
    ensures AllWellFormed(old(Views(code)))
    ensures fresh(reg) && fresh(mem)
    ensures Effect(completed, reg.entries, mem.entries) == Run(old(Views(code)), map[], map[])
    ensures executed == Ran(old(Views(code)), map[], map[])
  {
    ghost var v := Views(code);
    assert AllWellFormed(v) && v[0..] == v;
    reg := new Cells();
    mem := new Cells();
    completed, executed := true, 0;
    var i := 0;
    while i < |code|
      invariant 0 <= i <= |code| && executed == i
      invariant forall k :: 0 <= k < |code| ==> code[k].View() == v[k]
      invariant AllWellFormed(v) && AllWellFormed(v[i..])
      invariant Run(v, map[], map[]) == Run(v[i..], reg.entries, mem.entries)
      invariant Ran(v, map[], map[]) == i + Ran(v[i..], reg.entries, mem.entries)
      invariant completed
    {
      ghost var before := (reg.entries, mem.entries);
      var ok := code[i].Execute(reg, mem);
      RunAdvance(v, i, before.0, before.1, Effect(ok, reg.entries, mem.entries));
      executed := executed + 1;
      if !ok {
        completed := false;
        break;
      }
      i := i + 1;
    }
  }

  // ---------------------------------------------------------------------
  // Comment lines
  // ---------------------------------------------------------------------

  /** A text whose first token is not an opcode parses to an instruction with no field set. */
  lemma FirstNotOpcode(table: seq<Rule>, s: string)
    requires Lex(table, s).kind != Opcode
    ensures ParseTokens(Tokens(table, s)) == Unset
  {
    ParseOpcodeStep(Tokens(table, s));
  }

  /**
   * A line starting with ';' parses to an instruction with no field set, so
   * executing it fails: `interpret` aborts at the first comment line.
   */
  lemma CommentLineAborts(str: string, reg: map<nat, int>, mem: map<Key, int>)
    requires |str| > 0 && str[0] == ';'
    ensures ParseLine(str) == Unset
    ensures StepAsWritten(ParseLine(str), reg, mem) == Effect(false, reg, mem)
  {
    assert Lex(MatchboxTable, str).kind == UnknownCharacter by {
      assert MatchboxScan(str).kind == UnknownCharacter;
      assert AfterBlanks(str) == str by {
        assert Span(Blank, str) == 0;
      }
      MatchboxLex(str);
    }
    FirstNotOpcode(MatchboxTable, str);
  }
}
