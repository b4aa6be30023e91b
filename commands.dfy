/**
 * The text commands of the bot's `messageCreate` handler: `+painel` opens the
 * panel wizard, `+sorteio <quantidade> <tipo> <vencedores> <condição>` starts a
 * raffle. Parsing is a pure function from the message to the command it denotes.
 */
module Commands {
  import opened Options
  import opened Text
  import opened Numbers

  const PanelCommand: string := "+painel"
  const RaffleCommand: string := "+sorteio"

  /** What one chat message asks the bot to do. */
  datatype Command =
    | Ignored                      // a bot's message, or not a command
    | OpenPanel                    // `+painel`, in any letter case
    | RaffleUsage                  // `+sorteio` with missing or malformed arguments
    | StartRaffle(quantity: string, kind: string, winnerCount: int, condition: string)

  /** `message.content.toLowerCase() === "+painel"`; on this comparison only
      ASCII letters can matter, so ASCII lowering decides it exactly. */
  predicate IsPanelCommand(content: string)
    ensures IsPanelCommand(content) ==> |content| == |PanelCommand|
  {
    ToLowerAscii(content) == PanelCommand
  }

  /** `args[i]`, where a missing argument (`undefined`) is as falsy as `""`
      and also makes `parseInt` answer `NaN`. */
  function Arg(args: seq<string>, i: nat): (a: string)
    ensures a == "" <==> i >= |args| || args[i] == ""
    ensures i < |args| ==> a == args[i]
  {
    if i < |args| then args[i] else ""
  }

  /** The outcome of one `messageCreate` event. */
  function ParseMessage(authorIsBot: bool, content: string): (c: Command)
    ensures authorIsBot ==> c == Ignored
    ensures c.OpenPanel? ==> |content| == |PanelCommand|
    ensures c.StartRaffle? ==>
      && c.quantity != "" && ' ' !in c.quantity
      && c.kind != "" && ' ' !in c.kind
      && c.condition != "" && ' ' !in c.condition
  {
    if authorIsBot then Ignored
    else if IsPanelCommand(content) then OpenPanel
    else
      var args := Split(content, ' ');
      if args[0] != RaffleCommand then Ignored
      else
        var winners := ParseInt(Arg(args, 3));
        if Arg(args, 1) == "" || Arg(args, 2) == "" || winners.None? || Arg(args, 4) == "" then RaffleUsage
        else StartRaffle(args[1], args[2], winners.value, args[4])
  }

  /** The words of a `+sorteio` command joined by single spaces. */
  function RaffleText(quantity: string, kind: string, count: string, condition: string): string
  {
    Join([RaffleCommand, quantity, kind, count, condition], ' ')
  }

  /** The command text spelled out word by word. */
  lemma RaffleTextSpelled(quantity: string, kind: string, count: string, condition: string)
    ensures RaffleText(quantity, kind, count, condition)
         == RaffleCommand + " " + quantity + " " + kind + " " + count + " " + condition
  {
    var parts := [RaffleCommand, quantity, kind, count, condition];
    assert parts[1..] == [quantity, kind, count, condition];
    assert parts[1..][1..] == [kind, count, condition];
    assert parts[1..][1..][1..] == [count, condition];
    assert parts[1..][1..][1..][1..] == [condition];
    assert [count, condition][1..] == [condition];
    var t3 := Join([count, condition], ' ');
    assert Join([condition], ' ') == condition;
    assert t3 == count + [' '] + condition;
    assert [kind, count, condition][1..] == [count, condition];
    var t2 := Join([kind, count, condition], ' ');
    assert t2 == kind + " " + t3;
    assert [quantity, kind, count, condition][1..] == [kind, count, condition];
    var t1 := Join([quantity, kind, count, condition], ' ');
    assert t1 == quantity + " " + t2;
    assert Join(parts, ' ') == RaffleCommand + " " + t1;
  }

  /** A word as `split(" ")` leaves it: non-empty, with no space inside. */
  predicate IsWord(w: string)
  {
    w != "" && ' ' !in w
  }

  /** `+painel` is recognised in every mix of letter cases, and only then. */
  lemma PanelCommandCases(content: string)
    ensures IsPanelCommand(content) <==>
      && |content| == 7 && content[0] == '+'
      && content[1] in "pP" && content[2] in "aA" && content[3] in "iI"
      && content[4] in "nN" && content[5] in "eE" && content[6] in "lL"
  {
  }

  /** A message that begins with `+sorteio` is never the panel command. */
  lemma RaffleIsNotPanel(parts: seq<string>)
    requires |parts| >= 1 && parts[0] == RaffleCommand
    ensures !IsPanelCommand(Join(parts, ' '))
  {
  }

  /** The first five arguments of a `+sorteio` command are its five words. */
  lemma RaffleArgs(quantity: string, kind: string, count: string, condition: string, rest: string)
    requires ' ' !in quantity && ' ' !in kind && ' ' !in count && ' ' !in condition
    requires rest == [] || rest[0] == ' '
    ensures !IsPanelCommand(RaffleText(quantity, kind, count, condition) + rest)
    ensures var args := Split(RaffleText(quantity, kind, count, condition) + rest, ' ');
      && |args| >= 5 && args[0] == RaffleCommand && args[1] == quantity
      && args[2] == kind && args[3] == count && args[4] == condition
  {
    var parts := [RaffleCommand, quantity, kind, count, condition];
    var text := RaffleText(quantity, kind, count, condition);
    SplitJoinPrefix(parts, rest, ' ');
    var args := Split(text + rest, ' ');
    assert args[..5] == parts;
    assert forall i :: 0 <= i < 5 ==> args[i] == args[..5][i];
    if rest == [] {
      assert text + rest == text;
      RaffleIsNotPanel(parts);
    } else {
      assert |ToLowerAscii(text + rest)| > |text| >= |RaffleCommand|;
    }
  }

  /** A `+sorteio` command with non-empty words and a count token that
      `parseInt` reads as a number, followed by nothing or by further
      space-separated text, starts a raffle with exactly its arguments and
      the number read from the count, whatever the token's spelling (`2abc`,
      `+2`, `007` and `-0` included). */
  lemma ParseStartRaffle(quantity: string, kind: string, count: string, condition: string, rest: string)
    requires IsWord(quantity) && IsWord(kind) && IsWord(condition)
    requires ' ' !in count && ParseInt(count).Some?
    requires rest == [] || rest[0] == ' '
    ensures ParseMessage(false, RaffleText(quantity, kind, count, condition) + rest)
         == StartRaffle(quantity, kind, ParseInt(count).value, condition)
  {
    RaffleArgs(quantity, kind, count, condition, rest);
  }

  /** A command whose count is an integer written in decimal starts a raffle
      for exactly that many winners, zero and negatives included. */
  lemma ParseWrittenCount(quantity: string, kind: string, winnerCount: int, condition: string, rest: string)
    requires IsWord(quantity) && IsWord(kind) && IsWord(condition)
    requires rest == [] || rest[0] == ' '
    ensures ParseMessage(false, RaffleText(quantity, kind, IntToString(winnerCount), condition) + rest)
         == StartRaffle(quantity, kind, winnerCount, condition)
  {
    var count := IntToString(winnerCount);
    ParseIntRoundTrip(winnerCount, "");
    assert count + "" == count;
    assert ' ' !in count;
    ParseStartRaffle(quantity, kind, count, condition, rest);
  }

  /** `parseInt("2abc")` is 2: a count with trailing letters is accepted. */
  lemma CountWithLetters()
    ensures ParseInt("2abc") == Some(2)
  {
    ParseIntRoundTrip(2, "abc");
    assert IntToString(2) + "abc" == "2abc";
  }

  /** A `+sorteio` command whose count is not a number is answered with the
      usage text. */
  lemma ParseNonNumericCount(quantity: string, kind: string, count: string, condition: string, rest: string)
    requires ' ' !in quantity && ' ' !in kind && ' ' !in count && ' ' !in condition
    requires !StartsWithNumber(count)
    requires rest == [] || rest[0] == ' '
    ensures ParseMessage(false, RaffleText(quantity, kind, count, condition) + rest) == RaffleUsage
  {
    RaffleArgs(quantity, kind, count, condition, rest);
  }

  /** `+sorteio` followed by fewer than four words is answered with the usage text. */
  lemma ParseMissingArguments(words: seq<string>)
    requires |words| < 4
    requires forall i :: 0 <= i < |words| ==> ' ' !in words[i]
    ensures ParseMessage(false, Join([RaffleCommand] + words, ' ')) == RaffleUsage
  {
    var parts := [RaffleCommand] + words;
    CommandWords(words);
    SplitJoin(parts, ' ');
    RaffleIsNotPanel(parts);
  }

  /** `+sorteio` followed by words without spaces is a list of words without spaces. */
  lemma CommandWords(words: seq<string>)
    requires forall i :: 0 <= i < |words| ==> ' ' !in words[i]
    ensures forall i :: 0 <= i < |[RaffleCommand] + words| ==> ' ' !in ([RaffleCommand] + words)[i]
  {
  }

  /** A `+sorteio` command whose quantity, type or condition is empty, as
      left by two spaces in a row or by a space at the end, is answered with
      the usage text. */
  lemma ParseEmptyArgument(quantity: string, kind: string, count: string, condition: string, rest: string)
    requires ' ' !in quantity && ' ' !in kind && ' ' !in count && ' ' !in condition
    requires quantity == "" || kind == "" || condition == ""
    requires rest == [] || rest[0] == ' '
    ensures ParseMessage(false, RaffleText(quantity, kind, count, condition) + rest) == RaffleUsage
  {
    RaffleArgs(quantity, kind, count, condition, rest);
  }

  /** `+sorteio 1 VIP abc nenhuma` is refused: its count is not a number. */
  lemma ExampleNonNumeric()
    ensures ParseMessage(false, "+sorteio 1 VIP abc nenhuma") == RaffleUsage
  {
    ParseNonNumericCount("1", "VIP", "abc", "nenhuma", "");
    ExampleNonNumericText();
  }

  /** The example message is the command text built from its four arguments. */
  lemma ExampleNonNumericText()
    ensures RaffleText("1", "VIP", "abc", "nenhuma") + "" == "+sorteio 1 VIP abc nenhuma"
  {
    RaffleTextSpelled("1", "VIP", "abc", "nenhuma");
  }

  /** `+sorteio 1 VIP` is refused: the count and the condition are missing. */
  lemma ExampleMissing()
    ensures ParseMessage(false, "+sorteio 1 VIP") == RaffleUsage
  {
    ParseMissingArguments(["1", "VIP"]);
    assert Join([RaffleCommand] + ["1", "VIP"], ' ') == "+sorteio 1 VIP" by {
      assert [RaffleCommand] + ["1", "VIP"] == [RaffleCommand, "1", "VIP"];
      assert [RaffleCommand, "1", "VIP"][1..] == ["1", "VIP"];
      assert ["1", "VIP"][1..] == ["VIP"];
    }
  }
}
