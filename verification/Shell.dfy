/**
 Quoting of start commands, judged by a reader for POSIX quoting (POSIX.1-2017 Shell Command
 Language, sections 2.2.1 escape character, 2.2.2 single quotes and 2.3 token recognition).
 */
module Shell {
  import opened Basics

  const QUOTE: char := '\''
  const BACKSLASH: char := '\\'

  // ----- the printer -----

  /** Every single quote becomes: close, escaped quote, reopen. */
  function Escape(value: string): string
    decreases |value|
  {
    if value == "" then ""
    else
      var k := |value| - 1;
      Escape(value[..k]) + if value[k] == QUOTE then [QUOTE, BACKSLASH, QUOTE, QUOTE] else [value[k]]
  }

  function ShellQuote(value: string): string {
    [QUOTE] + Escape(value) + [QUOTE]
  }

  /** The literal text: a value without quotes stands between quotes; a quote is closed, escaped and reopened. */
  lemma QuoteIsLiteral(value: string)
    ensures QUOTE !in value ==> ShellQuote(value) == "'" + value + "'"
    ensures ShellQuote("'") == "''\\'''"
  {
    if QUOTE !in value {
      EscapePlain(value);
    }
    assert "'"[..0] == "" && Escape("") == "";
  }

  lemma {:induction false} EscapePlain(value: string)
    requires QUOTE !in value
    ensures Escape(value) == value
    decreases |value|
  {
    if value != "" {
      EscapePlain(value[..|value| - 1]);
    }
  }

  function Join(words: seq<string>): string
    decreases |words|
  {
    if words == [] then ""
    else if |words| == 1 then words[0]
    else Join(words[..|words| - 1]) + " " + words[|words| - 1]
  }

  function Quoted(args: seq<string>): (r: seq<string>)
    ensures |r| == |args|
    ensures forall i :: 0 <= i < |r| ==> r[i] == ShellQuote(args[i])
  {
    seq(|args|, i requires 0 <= i < |args| => ShellQuote(args[i]))
  }

  /** Quote each argument into a slice, then join behind "exec". */
  method BuildStartCmd(args: seq<string>) returns (cmd: string)
    ensures cmd == "exec " + Join(Quoted(args))
    ensures Lex(cmd) == Some(["exec"] + args)
  {
    var quoted := new string[|args|](_ => "");
    for i := 0 to |args|
      invariant forall k :: 0 <= k < i ==> quoted[k] == ShellQuote(args[k])
    {
      quoted[i] := ShellQuote(args[i]);
    }
    assert quoted[..] == Quoted(args);
    cmd := "exec " + Join(quoted[..]);
    StartCmdReadsBack(args);
  }

  // ----- the reader -----

  /** Between tokens, in a token outside quotes, after a backslash, or inside single quotes. */
  datatype Mode = Between | Plain | Escaped | InQuotes

  /** Characters that only delimit tokens. */
  predicate Blank(c: char) {
    c == ' ' || c == '\t' || c == '\n'
  }

  /** Characters with other meanings outside quotes; a command using them is not read here. */
  predicate Special(c: char) {
    c in {'"', '$', '`', '|', '&', ';', '<', '>', '(', ')', '*', '?', '[', ']', '#', '~', '=', '%', '!', '{', '}'}
  }

  /** Finished tokens, the token being built, and the mode; `None` for what is not read. */
  datatype State = Reading(words: seq<string>, word: string, mode: Mode) | Stuck

  function Feed(s: State, c: char): State {
    match s
    case Stuck => Stuck
    case Reading(words, word, mode) =>
      match mode
      case InQuotes =>
        if c == QUOTE then Reading(words, word, Plain) else Reading(words, word + [c], InQuotes)
      case Escaped =>
        if c == '\n' then Stuck else Reading(words, word + [c], Plain)
      case Between =>
        if Blank(c) then s
        else if c == QUOTE then Reading(words, "", InQuotes)
        else if c == BACKSLASH then Reading(words, "", Escaped)
        else if Special(c) then Stuck
        else Reading(words, [c], Plain)
      case Plain =>
        if Blank(c) then Reading(words + [word], "", Between)
        else if c == QUOTE then Reading(words, word, InQuotes)
        else if c == BACKSLASH then Reading(words, word, Escaped)
        else if Special(c) then Stuck
        else Reading(words, word + [c], Plain)
  }

  function FeedAll(s: State, text: string): State
    decreases |text|
  {
    if text == "" then s else Feed(FeedAll(s, text[..|text| - 1]), text[|text| - 1])
  }

  /** The tokens of a command line; unterminated quotes and escapes are errors. */
  function Lex(text: string): Option<seq<string>> {
    match FeedAll(Reading([], "", Between), text)
    case Reading(words, word, Between) => Some(words)
    case Reading(words, word, Plain) => Some(words + [word])
    case _ => None
  }

  // ----- reading back what was printed -----

  lemma {:induction false} FeedAppend(s: State, a: string, b: string)
    ensures FeedAll(s, a + b) == FeedAll(FeedAll(s, a), b)
    decreases |b|
  {
    if b == "" {
      assert a + b == a;
    } else {
      var k := |b| - 1;
      FeedAppend(s, a, b[..k]);
      assert (a + b)[..|a + b| - 1] == a + b[..k];
    }
  }

  /** Inside quotes, the escaped text contributes exactly the original characters. */
  lemma {:induction false} EscapeReadsBack(words: seq<string>, word: string, value: string)
    ensures FeedAll(Reading(words, word, InQuotes), Escape(value)) == Reading(words, word + value, InQuotes)
    decreases |value|
  {
    var s := Reading(words, word, InQuotes);
    if value == "" {
      assert word + value == word;
    } else {
      var k := |value| - 1;
      EscapeReadsBack(words, word, value[..k]);
      var s1 := Reading(words, word + value[..k], InQuotes);
      assert word + value == word + value[..k] + [value[k]];
      if value[k] == QUOTE {
        FeedAppend(s, Escape(value[..k]), [QUOTE, BACKSLASH, QUOTE, QUOTE]);
        FeedFour(s1, QUOTE, BACKSLASH, QUOTE, QUOTE);
      } else {
        FeedAppend(s, Escape(value[..k]), [value[k]]);
        FeedOne(s1, value[k]);
      }
    }
  }

  lemma FeedOne(s: State, c: char)
    ensures FeedAll(s, [c]) == Feed(s, c)
  {
    assert [c][..0] == "";
  }

  lemma FeedFour(s: State, a: char, b: char, c: char, d: char)
    ensures FeedAll(s, [a, b, c, d]) == Feed(Feed(Feed(Feed(s, a), b), c), d)
  {
    FeedAppend(s, [a, b, c], [d]);
    FeedAppend(s, [a, b], [c]);
    FeedAppend(s, [a], [b]);
    FeedOne(s, a);
    FeedOne(Feed(s, a), b);
    FeedOne(Feed(Feed(s, a), b), c);
    FeedOne(Feed(Feed(Feed(s, a), b), c), d);
    assert [a, b, c] + [d] == [a, b, c, d] && [a, b] + [c] == [a, b, c] && [a] + [b] == [a, b];
  }

  /** A quoted value is one token: the value itself, whatever characters it holds. */
  lemma QuoteReadsBack(words: seq<string>, value: string)
    ensures FeedAll(Reading(words, "", Between), ShellQuote(value)) == Reading(words, value, Plain)
  {
    var s := Reading(words, "", Between);
    FeedAppend(s, [QUOTE] + Escape(value), [QUOTE]);
    FeedAppend(s, [QUOTE], Escape(value));
    FeedOne(s, QUOTE);
    EscapeReadsBack(words, "", value);
    assert "" + value == value;
    FeedOne(Reading(words, value, InQuotes), QUOTE);
  }

  /** The joined arguments, read after a finished token and a blank. */
  lemma {:induction false} JoinReadsBack(words: seq<string>, args: seq<string>)
    requires args != []
    ensures FeedAll(Reading(words, "", Between), Join(Quoted(args)))
            == Reading(words + args[..|args| - 1], args[|args| - 1], Plain)
    decreases |args|
  {
    var k := |args| - 1;
    var s := Reading(words, "", Between);
    if k == 0 {
      QuoteReadsBack(words, args[0]);
      assert words + args[..0] == words;
    } else {
      var front := args[..k];
      JoinReadsBack(words, front);
      assert Quoted(args)[..k] == Quoted(front);
      FeedAppend(s, Join(Quoted(front)) + " ", ShellQuote(args[k]));
      FeedAppend(s, Join(Quoted(front)), " ");
      FeedOne(Reading(words + front[..k - 1], front[k - 1], Plain), ' ');
      assert words + front[..k - 1] + [front[k - 1]] == words + front;
      QuoteReadsBack(words + front, args[k]);
    }
  }

  lemma ExecReads()
    ensures FeedAll(Reading([], "", Between), "exec ") == Reading(["exec"], "", Between)
  {
    var s := Reading([], "", Between);
    FeedAppend(s, "exec", " ");
    FeedFour(s, 'e', 'x', 'e', 'c');
    assert "exec" == ['e', 'x', 'e', 'c'] == ['e'] + ['x'] + ['e'] + ['c'];
    FeedOne(Reading([], "exec", Plain), ' ');
    assert "exec" + " " == "exec ";
  }

  /** Lexing the built command gives "exec" and exactly the original arguments. */
  lemma StartCmdReadsBack(args: seq<string>)
    ensures Lex("exec " + Join(Quoted(args))) == Some(["exec"] + args)
  {
    ExecReads();
    FeedAppend(Reading([], "", Between), "exec ", Join(Quoted(args)));
    if args == [] {
      assert ["exec"] + args == ["exec"];
    } else {
      JoinReadsBack(["exec"], args);
      var k := |args| - 1;
      assert ["exec"] + args == ["exec"] + args[..k] + [args[k]];
    }
  }
}
