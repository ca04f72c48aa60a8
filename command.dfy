// The motion-command line parser: a line such as "G1 X10.0 Y20.0 F2000" is
// accepted when it starts with 'G' or 'M', then split into letter+text
// tokens, and the texts of the X, Y, Z, E, F and T tokens become the
// command's optional values. The Arduino String conversions toInt and
// toFloat are parameters.
module Gcode {
  import opened Platform

  /**
   * A parsed command: `id` is the C `char` code of the first letter (-1 before
   * any line, 0 after a rejected line), `num` the number after it, and the
   * six values, absent (NAN in the firmware) unless the line sets them.
   */
  datatype Cmd = Cmd(id: int, num: int,
                     valueX: Option<real>, valueY: Option<real>, valueZ: Option<real>,
                     valueE: Option<real>, valueF: Option<real>, valueT: Option<real>)

  /** One scanned token: the character at the scan position and the text after it. */
  datatype Token = Token(letter: char, text: string)

  /**
   * String::indexOf(c, from): the first position at or after `from` holding
   * `c`, or -1 when there is none (also when `from` is past the end).
   */
  function IndexOf(s: string, c: char, from: nat): (r: int)
    ensures r == -1 || (from <= r < |s| && s[r] == c)
    ensures forall k :: from <= k < |s| && (r == -1 || k < r) ==> s[k] != c
    decreases |s| - from
  {
    if from >= |s| then -1
    else if s[from] == c then from
    else IndexOf(s, c, from + 1)
  }

  /** String::substring(from): empty when `from` is past the end. */
  function SuffixFrom(s: string, from: nat): (r: string)
    ensures from <= |s| ==> s[..from] + r == s
    ensures from >= |s| ==> r == []
  {
    if from <= |s| then s[from..] else []
  }

  /**
   * The tokens the scan of parseLine meets from position `idx` on: the
   * character at `idx`, then the text up to the next space or the end of the
   * line; the scan resumes after that space.
   */
  function TokensFrom(line: string, idx: nat): (r: seq<Token>)
    // Each token consumes at least its letter, and the first is the letter at `idx`.
    ensures idx <= |line| ==> |r| <= |line| - idx
    ensures idx >= |line| <==> r == []
    ensures idx < |line| ==> r[0].letter == line[idx]
    decreases |line| - idx
  {
    if idx >= |line| then []
    else
      var axis := line[idx];
      var nextSpace := IndexOf(line, ' ', idx + 1);
      if nextSpace == -1 then [Token(axis, line[idx + 1..])]
      else [Token(axis, line[idx + 1..nextSpace])] + TokensFrom(line, nextSpace + 1)
  }

  /** The text of the last token whose letter is `letter`: a later token overrides an earlier one. */
  function LastText(tokens: seq<Token>, letter: char): (r: Option<string>)
    ensures r.None? <==> forall i :: 0 <= i < |tokens| ==> tokens[i].letter != letter
    ensures r.Some? ==> exists i :: 0 <= i < |tokens| && tokens[i] == Token(letter, r.value)
                                    && forall j :: i < j < |tokens| ==> tokens[j].letter != letter
  {
    if tokens == [] then None
    else
      var last := tokens[|tokens| - 1];
      if last.letter == letter then Some(last.text)
      else LastText(tokens[..|tokens| - 1], letter)
  }

  function FieldValue(tokens: seq<Token>, letter: char, toFloat: string -> real): Option<real>
  {
    match LastText(tokens, letter)
    case None => None
    case Some(text) => Some(toFloat(text))
  }

  /** The letters whose tokens set one of the six values. */
  predicate IsValueLetter(c: char) {
    c == 'X' || c == 'Y' || c == 'Z' || c == 'E' || c == 'F' || c == 'T'
  }

  /** The value field a value letter selects; None for any other letter. */
  function Field(cmd: Cmd, letter: char): Option<real>
  {
    match letter
    case 'X' => cmd.valueX
    case 'Y' => cmd.valueY
    case 'Z' => cmd.valueZ
    case 'E' => cmd.valueE
    case 'F' => cmd.valueF
    case 'T' => cmd.valueT
    case _ => None
  }

  /** The switch of parseLine: a value letter sets its own value, any other letter nothing. */
  function Assign(cmd: Cmd, letter: char, val: real): (r: Cmd)
    ensures r.id == cmd.id && r.num == cmd.num
    ensures forall l :: IsValueLetter(l) ==> Field(r, l) == if l == letter then Some(val) else Field(cmd, l)
    ensures !IsValueLetter(letter) ==> r == cmd
  {
    match letter
    case 'X' => cmd.(valueX := Some(val))
    case 'Y' => cmd.(valueY := Some(val))
    case 'Z' => cmd.(valueZ := Some(val))
    case 'E' => cmd.(valueE := Some(val))
    case 'F' => cmd.(valueF := Some(val))
    case 'T' => cmd.(valueT := Some(val))
    case _ => cmd
  }

  /** The command whose values are chosen from `tokens`. */
  function Fill(id: int, num: int, tokens: seq<Token>, toFloat: string -> real): Cmd
  {
    Cmd(id, num,
        FieldValue(tokens, 'X', toFloat), FieldValue(tokens, 'Y', toFloat),
        FieldValue(tokens, 'Z', toFloat), FieldValue(tokens, 'E', toFloat),
        FieldValue(tokens, 'F', toFloat), FieldValue(tokens, 'T', toFloat))
  }

  /**
   * A value is absent exactly when no token carries its letter; otherwise it
   * is the conversion of the text of the last token that does.
   */
  ghost predicate ChosenByLast(r: Cmd, ts: seq<Token>, toFloat: string -> real) {
    forall l :: IsValueLetter(l) ==>
      && (Field(r, l).None? <==> forall i :: 0 <= i < |ts| ==> ts[i].letter != l)
      && (Field(r, l).Some? ==>
            exists i :: 0 <= i < |ts| && ts[i].letter == l && Field(r, l) == Some(toFloat(ts[i].text))
                && forall j :: i < j < |ts| ==> ts[j].letter != l)
  }

  /** Each value of the filled command is chosen by the last token carrying its letter. */
  lemma FillChoosesLast(id: int, num: int, ts: seq<Token>, toFloat: string -> real)
    ensures ChosenByLast(Fill(id, num, ts, toFloat), ts, toFloat)
  {
    var r := Fill(id, num, ts, toFloat);
    forall l | IsValueLetter(l)
      ensures Field(r, l) == FieldValue(ts, l, toFloat)
    {
    }
  }

  /** String::charAt(0) as a C `char`: NUL for an empty line. */
  function FirstChar(line: string): (r: int)
    ensures |line| > 0 ==> r == line[0] as int
    ensures r == 0 <==> |line| == 0 || line[0] == '\0'
  {
    if |line| == 0 then 0 else line[0] as int
  }

  /** What parseLine leaves in the command for `line`. */
  function Parse(line: string, toInt: string -> int, toFloat: string -> real): (r: Cmd)
    ensures r.id == FirstChar(line) && r.num == toInt(SuffixFrom(line, 1))
    ensures ChosenByLast(r, TokensFrom(line, 1), toFloat)
  {
    FillChoosesLast(FirstChar(line), toInt(SuffixFrom(line, 1)), TokensFrom(line, 1), toFloat);
    Fill(FirstChar(line), toInt(SuffixFrom(line, 1)), TokensFrom(line, 1), toFloat)
  }

  /** handleGcodeLine's acceptance test. */
  function Accepted(line: string): (r: bool)
    ensures r <==> FirstChar(line) == 'G' as int || FirstChar(line) == 'M' as int
  {
    |line| > 0 && (line[0] == 'G' || line[0] == 'M')
  }

  /** The tokens written back as text: each letter, its text and a separating space. */
  function Flatten(tokens: seq<Token>): string
    decreases |tokens|
  {
    if tokens == [] then [] else [tokens[0].letter] + tokens[0].text + " " + Flatten(tokens[1..])
  }

  /**
   * The scan loses and invents nothing: writing the tokens back gives the
   * rest of the line, plus one trailing space when the last token ran to
   * the end of the line.
   */
  lemma {:induction false} TokensRoundTrip(line: string, idx: nat)
    requires idx <= |line|
    ensures Flatten(TokensFrom(line, idx)) == line[idx..]
         || Flatten(TokensFrom(line, idx)) == line[idx..] + " "
    decreases |line| - idx
  {
    if idx < |line| {
      var ts := TokensFrom(line, idx);
      var nextSpace := IndexOf(line, ' ', idx + 1);
      assert Flatten(ts) == [ts[0].letter] + ts[0].text + " " + Flatten(ts[1..]);
      if nextSpace == -1 {
        assert ts == [Token(line[idx], line[idx + 1..])];
        assert Flatten(ts[1..]) == [];
        assert Flatten(ts) == line[idx..] + " ";
      } else {
        var rest := TokensFrom(line, nextSpace + 1);
        assert ts == [Token(line[idx], line[idx + 1..nextSpace])] + rest;
        assert ts[1..] == rest;
        TokensRoundTrip(line, nextSpace + 1);
        SplitAtSpace(line, idx, nextSpace);
        var head := [line[idx]] + line[idx + 1..nextSpace] + " ";
        assert Flatten(ts) == head + Flatten(rest);
        if Flatten(rest) != line[nextSpace + 1..] {
          assert head + (line[nextSpace + 1..] + " ") == head + line[nextSpace + 1..] + " ";
        }
      }
    }
  }

  /** A line cut at a space after position `idx`: the letter, the text before the space, the space, the rest. */
  lemma SplitAtSpace(line: string, idx: nat, nextSpace: nat)
    requires idx < nextSpace < |line| && line[nextSpace] == ' '
    ensures line[idx..] == [line[idx]] + line[idx + 1..nextSpace] + " " + line[nextSpace + 1..]
  {
    assert line[idx..] == [line[idx]] + line[idx + 1..];
    assert line[idx + 1..] == line[idx + 1..nextSpace] + line[nextSpace..];
    assert line[nextSpace..] == " " + line[nextSpace + 1..];
  }

  /** Every token's letter is a character of the line at or after the scan start. */
  lemma {:induction false} TokenLettersFromLine(line: string, idx: nat)
    ensures forall t :: t in TokensFrom(line, idx) ==> exists p :: idx <= p < |line| && line[p] == t.letter
    decreases |line| - idx
  {
    if idx < |line| {
      var nextSpace := IndexOf(line, ' ', idx + 1);
      if nextSpace != -1 {
        TokenLettersFromLine(line, nextSpace + 1);
      }
    }
  }

  /** No token's text contains a space: a value ends at the next space. */
  lemma {:induction false} TokenTextsHaveNoSpace(line: string, idx: nat)
    ensures forall t :: t in TokensFrom(line, idx) ==> ' ' !in t.text
    decreases |line| - idx
  {
    if idx < |line| {
      var nextSpace := IndexOf(line, ' ', idx + 1);
      if nextSpace != -1 {
        TokenTextsHaveNoSpace(line, nextSpace + 1);
      }
    }
  }

  /** A letter that does not occur after the first character leaves its value absent. */
  lemma AbsentLetterStaysAbsent(line: string, letter: char, toFloat: string -> real)
    requires forall p :: 1 <= p < |line| ==> line[p] != letter
    ensures FieldValue(TokensFrom(line, 1), letter, toFloat) == None
  {
    var tokens := TokensFrom(line, 1);
    TokenLettersFromLine(line, 1);
    forall i | 0 <= i < |tokens| ensures tokens[i].letter != letter {
      assert tokens[i] in tokens;
    }
  }

  /** Only the six value letters are kept: tokens carrying any other letter set no value. */
  lemma OtherLettersIgnored(id: int, num: int, tokens: seq<Token>, toFloat: string -> real)
    requires forall i :: 0 <= i < |tokens| ==> !IsValueLetter(tokens[i].letter)
    ensures Fill(id, num, tokens, toFloat) == Cmd(id, num, None, None, None, None, None, None)
  {
  }

  /** Appending a token overrides the value of its own letter and no other. */
  lemma {:induction false} FieldValueAppend(tokens: seq<Token>, t: Token, letter: char, toFloat: string -> real)
    ensures FieldValue(tokens + [t], letter, toFloat)
         == if t.letter == letter then Some(toFloat(t.text)) else FieldValue(tokens, letter, toFloat)
  {
    assert (tokens + [t])[..|tokens|] == tokens;
  }

  /** Before any token is scanned, all six values are absent. */
  lemma FillNone(id: int, num: int, toFloat: string -> real)
    ensures Fill(id, num, [], toFloat) == Cmd(id, num, None, None, None, None, None, None)
  {
  }

  /** Scanning one more token is one more step of the switch. */
  lemma FillAppend(id: int, num: int, tokens: seq<Token>, t: Token, toFloat: string -> real)
    ensures Fill(id, num, tokens + [t], toFloat) == Assign(Fill(id, num, tokens, toFloat), t.letter, toFloat(t.text))
  {
    FieldValueAppend(tokens, t, 'X', toFloat);
    FieldValueAppend(tokens, t, 'Y', toFloat);
    FieldValueAppend(tokens, t, 'Z', toFloat);
    FieldValueAppend(tokens, t, 'E', toFloat);
    FieldValueAppend(tokens, t, 'F', toFloat);
    FieldValueAppend(tokens, t, 'T', toFloat);
  }

  /** The switch applied to each of `tokens` in turn, as parseLine's loop does. */
  function Replay(cmd: Cmd, tokens: seq<Token>, toFloat: string -> real): Cmd
    decreases |tokens|
  {
    if tokens == [] then cmd
    else Replay(Assign(cmd, tokens[0].letter, toFloat(tokens[0].text)), tokens[1..], toFloat)
  }

  /**
   * Running the switch over the tokens of a line, one at a time from the
   * reset command, gives the values chosen by the last occurrence of each letter.
   */
  lemma {:induction false} ReplayFill(id: int, num: int, seen: seq<Token>, tokens: seq<Token>, toFloat: string -> real)
    ensures Replay(Fill(id, num, seen, toFloat), tokens, toFloat) == Fill(id, num, seen + tokens, toFloat)
    decreases |tokens|
  {
    if tokens != [] {
      FillAppend(id, num, seen, tokens[0], toFloat);
      ReplayFill(id, num, seen + [tokens[0]], tokens[1..], toFloat);
      assert seen + [tokens[0]] + tokens[1..] == seen + tokens;
    } else {
      assert seen + tokens == seen;
    }
  }

  /** One step of the scan, as parseLine's loop body takes it. */
  lemma TokensStep(line: string, idx: nat)
    requires idx < |line|
    ensures var nextSpace := IndexOf(line, ' ', idx + 1);
            TokensFrom(line, idx)
            == if nextSpace == -1 then [Token(line[idx], line[idx + 1..])]
               else [Token(line[idx], line[idx + 1..nextSpace])] + TokensFrom(line, nextSpace + 1)
  {
  }

  /**
   * Replaying the tokens from `idx` is one switch step on the token at `idx`,
   * whose text runs up to `nextSpace` (or the end), then the tokens from `rest`.
   */
  lemma ReplayStep(cmd: Cmd, line: string, idx: nat, nextSpace: int, rest: nat, text: string, toFloat: string -> real)
    requires idx < |line| && nextSpace == IndexOf(line, ' ', idx + 1)
    requires nextSpace == -1 ==> text == line[idx + 1..] && rest == |line|
    requires nextSpace != -1 ==> text == line[idx + 1..nextSpace] && rest == nextSpace + 1
    ensures Replay(cmd, TokensFrom(line, idx), toFloat)
         == Replay(Assign(cmd, line[idx], toFloat(text)), TokensFrom(line, rest), toFloat)
  {
    TokensStep(line, idx);
    assert TokensFrom(line, idx) == [Token(line[idx], text)] + TokensFrom(line, rest);
    assert ([Token(line[idx], text)] + TokensFrom(line, rest))[1..] == TokensFrom(line, rest);
  }

  /** The scan of "G1 X10 Y-5" sees the code digit as a token of its own. */
  lemma ExampleTokens()
    ensures TokensFrom("G1 X10 Y-5", 1) == [Token('1', ""), Token('X', "10"), Token('Y', "-5")]
  {
    var line := "G1 X10 Y-5";
    assert IndexOf(line, ' ', 8) == -1;
    assert line[8..] == "-5";
    assert TokensFrom(line, 7) == [Token('Y', "-5")];
    assert IndexOf(line, ' ', 4) == 6;
    assert line[4..6] == "10";
    assert TokensFrom(line, 3) == [Token('X', "10"), Token('Y', "-5")];
    assert IndexOf(line, ' ', 2) == 2;
    assert line[2..2] == "";
  }

  /** Parsing "G1 X10 Y-5" sets X and Y from their texts and leaves the other values absent. */
  lemma ExampleLine(toInt: string -> int, toFloat: string -> real)
    ensures Parse("G1 X10 Y-5", toInt, toFloat)
         == Cmd('G' as int, toInt("1 X10 Y-5"), Some(toFloat("10")), Some(toFloat("-5")), None, None, None, None)
  {
    var tokens := [Token('1', ""), Token('X', "10"), Token('Y', "-5")];
    var num := toInt("1 X10 Y-5");
    ExampleTokens();
    FillNone('G' as int, num, toFloat);
    ReplayFill('G' as int, num, [], tokens, toFloat);
    assert [] + tokens == tokens;
    var c0 := Cmd('G' as int, num, None, None, None, None, None, None);
    var c2 := c0.(valueX := Some(toFloat("10")));
    var c3 := c2.(valueY := Some(toFloat("-5")));
    assert Replay(c3, tokens[3..], toFloat) == c3;
    assert Replay(c2, tokens[2..], toFloat) == c3;
    assert Replay(c0, tokens[1..], toFloat) == c3;
    assert !IsValueLetter('1');
    assert Replay(c0, tokens, toFloat) == c3;
    assert Fill('G' as int, num, tokens, toFloat) == c3;
    assert SuffixFrom("G1 X10 Y-5", 1) == "1 X10 Y-5";
  }

  class Command {
    var currentCmd: Cmd

    constructor ()
      ensures currentCmd == Cmd(-1, 0, None, None, None, None, None, None)
    {
      currentCmd := Cmd(-1, 0, None, None, None, None, None, None);
    }

    /** Accepts a 'G' or 'M' line and parses it; any other line only marks the command invalid. */
    method HandleGcodeLine(line: string, toInt: string -> int, toFloat: string -> real) returns (ok: bool)
      modifies this
      ensures ok <==> Accepted(line)
      ensures ok ==> currentCmd == Parse(line, toInt, toFloat) && currentCmd.id == line[0] as int
      ensures !ok ==> currentCmd == old(currentCmd).(id := 0)
    {
      if |line| == 0 || (line[0] != 'G' && line[0] != 'M') {
        currentCmd := currentCmd.(id := 0);
        return false;
      }
      ParseLine(line, toInt, toFloat);
      return true;
    }

    method ParseLine(line: string, toInt: string -> int, toFloat: string -> real)
      modifies this
      ensures currentCmd == Parse(line, toInt, toFloat)
    {
      currentCmd := currentCmd.(id := FirstChar(line));
      currentCmd := currentCmd.(num := toInt(SuffixFrom(line, 1)));
      currentCmd := currentCmd.(valueX := None, valueY := None, valueZ := None);
      currentCmd := currentCmd.(valueE := None, valueF := None, valueT := None);

      var idx := 1;
      ReplayFill(FirstChar(line), toInt(SuffixFrom(line, 1)), [], TokensFrom(line, 1), toFloat);
      assert [] + TokensFrom(line, 1) == TokensFrom(line, 1);
      while idx < |line|
        invariant 1 <= idx
        invariant Replay(currentCmd, TokensFrom(line, idx), toFloat) == Parse(line, toInt, toFloat)
        decreases |line| - idx
      {
        ghost var here := idx;
        var axis := line[idx];
        idx := idx + 1;
        var nextSpace := IndexOf(line, ' ', idx);
        var numStr;
        if nextSpace == -1 {
          numStr := line[idx..];
          idx := |line|;
        } else {
          numStr := line[idx..nextSpace];
          idx := nextSpace + 1;
        }
        var val := toFloat(numStr);
        ReplayStep(currentCmd, line, here, nextSpace, idx, numStr, toFloat);
        currentCmd := Assign(currentCmd, axis, val);
      }
    }
  }
}
