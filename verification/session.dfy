/** The console loop of chatbot.py (`chat`) without the console: the
    exit-command test on each line read, and the lines the bot prints for a
    given sequence of input lines. Preprocessing is a parameter, since it is
    done by a language model whose behaviour is not part of this model. */
module Session {
  import opened Responder

  /** ASCII lower-casing of one character: 'A'..'Z' become 'a'..'z', every
      other character is kept. */
  function LowerChar(c: char): char
  {
    if 'A' <= c <= 'Z' then (c as int - 'A' as int + 'a' as int) as char else c
  }

  /** ASCII upper-casing of one character, used as an independent reference
      for case-insensitive comparison. */
  function UpperChar(c: char): char
  {
    if 'a' <= c <= 'z' then (c as int - 'a' as int + 'A' as int) as char else c
  }

  /** Python's `s.lower()`, restricted to ASCII letters. */
  function Lower(s: string): (r: string)
    ensures |r| == |s|
    ensures forall i :: 0 <= i < |s| ==> !('A' <= r[i] <= 'Z')
    ensures forall i :: 0 <= i < |s| ==> ('A' <= s[i] <= 'Z' || r[i] == s[i])
    decreases |s|
  {
    if |s| == 0 then "" else [LowerChar(s[0])] + Lower(s[1..])
  }

  /** The test `user_input.lower() in ['exit', 'quit']`. */
  predicate IsExitCommand(input: string)
  {
    Lower(input) in ["exit", "quit"]
  }

  /** `s` spells the lower-case `word` with each letter in either case. */
  predicate SpellsIgnoringCase(s: string, word: string)
  {
    |s| == |word| && forall i :: 0 <= i < |s| ==> s[i] == word[i] || s[i] == UpperChar(word[i])
  }

  /** Lower-casing yields a given lower-case letter exactly from that letter
      and its upper-case form. */
  lemma LowerCharIff(c: char, l: char)
    requires 'a' <= l <= 'z'
    ensures LowerChar(c) == l <==> c == l || c == UpperChar(l)
  {
  }

  /** Lower-casing gives a lower-case word exactly when the input spells it
      with letters in any case. */
  lemma {:induction false} LowerIsWordIff(s: string, word: string)
    requires forall i :: 0 <= i < |word| ==> 'a' <= word[i] <= 'z'
    ensures Lower(s) == word <==> SpellsIgnoringCase(s, word)
    decreases |s|
  {
    if |s| == |word| && |s| > 0 {
      LowerCharIff(s[0], word[0]);
      LowerIsWordIff(s[1..], word[1..]);
      assert Lower(s) == [LowerChar(s[0])] + Lower(s[1..]);
      if SpellsIgnoringCase(s, word) {
        forall i | 0 <= i < |s| - 1
          ensures s[1..][i] == word[1..][i] || s[1..][i] == UpperChar(word[1..][i])
        {
          assert s[i + 1] == word[i + 1] || s[i + 1] == UpperChar(word[i + 1]);
        }
        assert word == [word[0]] + word[1..];
      }
      if Lower(s) == word {
        forall i | 0 <= i < |s|
          ensures s[i] == word[i] || s[i] == UpperChar(word[i])
        {
          if i > 0 {
            assert s[1..][i - 1] == s[i];
            LowerCharIff(s[i], word[i]);
          }
        }
      }
    }
  }

  /** The session ends exactly on "exit" or "quit" written in any mix of
      upper and lower case, with nothing else on the line. */
  lemma ExitCommandIff(input: string)
    ensures IsExitCommand(input)
        <==> SpellsIgnoringCase(input, "exit") || SpellsIgnoringCase(input, "quit")
  {
    LowerIsWordIff(input, "exit");
    LowerIsWordIff(input, "quit");
  }

  /** Lower-casing twice is lower-casing once. */
  lemma {:induction false} LowerIdempotent(s: string)
    ensures Lower(Lower(s)) == Lower(s)
    decreases |s|
  {
    if |s| > 0 {
      LowerIdempotent(s[1..]);
      assert Lower(s)[1..] == Lower(s[1..]);
    }
  }

  /** The letters of the command may be in either case. */
  lemma ExitCommandCaseExamples()
    ensures IsExitCommand("exit") && IsExitCommand("EXIT") && IsExitCommand("Quit")
  {
    var e, u, q := "exit", "EXIT", "Quit";
    assert SpellsIgnoringCase(e, "exit");
    assert SpellsIgnoringCase(u, "exit");
    assert SpellsIgnoringCase(q, "quit");
    ExitCommandIff(e);
    ExitCommandIff(u);
    ExitCommandIff(q);
  }

  /** Anything else on the line, even a space, keeps the session going. */
  lemma ExitCommandSpaceExamples()
    ensures !IsExitCommand("exit ") && !IsExitCommand(" quit") && !IsExitCommand("exits")
    ensures !IsExitCommand("")
  {
    ExitCommandIff("exit ");
    ExitCommandIff(" quit");
    ExitCommandIff("exits");
    ExitCommandIff("");
  }

  const GoodbyeLine: string := "Chatbot: Goodbye! Have a great day."

  /** The line printed in answer to a line that is not an exit command. */
  function AnswerLine(input: string, preprocess: string -> seq<string>): string
  {
    "Chatbot: " + GenerateResponse(preprocess(input))
  }

  /** Index of the first exit command, or `|inputs|` when there is none. */
  function FirstExit(inputs: seq<string>): (k: nat)
    ensures k <= |inputs|
    ensures k < |inputs| ==> IsExitCommand(inputs[k])
    ensures forall i :: 0 <= i < k ==> !IsExitCommand(inputs[i])
    decreases |inputs|
  {
    if |inputs| == 0 || IsExitCommand(inputs[0]) then 0
    else 1 + FirstExit(inputs[1..])
  }

  /** The lines printed (after the welcome banner) while reading `inputs`
      one by one: an answer for each line until the first exit command,
      which is answered with the goodbye line and ends the loop. */
  function Conversation(inputs: seq<string>, preprocess: string -> seq<string>): (lines: seq<string>)
    ensures var k := FirstExit(inputs);
      && |lines| == (if k < |inputs| then k + 1 else |inputs|)
      && (forall i :: 0 <= i < |lines| && i != k ==> lines[i] == AnswerLine(inputs[i], preprocess))
      && (k < |inputs| ==> lines[k] == GoodbyeLine)
    decreases |inputs|
  {
    if |inputs| == 0 then []
    else if IsExitCommand(inputs[0]) then [GoodbyeLine]
    else
      var rest := Conversation(inputs[1..], preprocess);
      assert FirstExit(inputs) == 1 + FirstExit(inputs[1..]);
      ShiftedAnswers(inputs, x => AnswerLine(x, preprocess), rest, FirstExit(inputs[1..]));
      [AnswerLine(inputs[0], preprocess)] + rest
  }

  /** The step of `Conversation` past a line that is not an exit command:
      if `rest` answers the lines after the first one, with the goodbye line
      at `k`, then prefixing the answer to the first line answers all of
      them, with the goodbye line at `k + 1`. Stated for any answering
      function `answer`. */
  lemma ShiftedAnswers(inputs: seq<string>, answer: string -> string, rest: seq<string>, k: nat)
    requires |inputs| > 0
    requires |rest| == (if k < |inputs| - 1 then k + 1 else |inputs| - 1)
    requires forall i :: 0 <= i < |rest| && i != k ==> rest[i] == answer(inputs[1..][i])
    requires k < |inputs| - 1 ==> rest[k] == GoodbyeLine
    ensures var lines := [answer(inputs[0])] + rest;
      && |lines| == (if k + 1 < |inputs| then k + 2 else |inputs|)
      && (forall i :: 0 <= i < |lines| && i != k + 1 ==> lines[i] == answer(inputs[i]))
      && (k + 1 < |inputs| ==> lines[k + 1] == GoodbyeLine)
  {
    var lines := [answer(inputs[0])] + rest;
    forall i | 1 <= i < |lines|
      ensures lines[i] == rest[i - 1] && inputs[i] == inputs[1..][i - 1]
    {
    }
  }

  /** Lines typed after an exit command are never read. */
  lemma {:induction false} NothingAfterExit(inputs: seq<string>, more: seq<string>, preprocess: string -> seq<string>)
    requires FirstExit(inputs) < |inputs|
    ensures Conversation(inputs + more, preprocess) == Conversation(inputs, preprocess)
    decreases |inputs|
  {
    if !IsExitCommand(inputs[0]) {
      assert (inputs + more)[1..] == inputs[1..] + more;
      NothingAfterExit(inputs[1..], more, preprocess);
    }
  }

  /** The bot answers as it reads: the lines for a prefix of the input are a
      prefix of the lines for the whole input. */
  lemma {:induction false} ConversationIsOnline(inputs: seq<string>, more: seq<string>, preprocess: string -> seq<string>)
    ensures Conversation(inputs, preprocess) <= Conversation(inputs + more, preprocess)
    decreases |inputs|
  {
    if |inputs| > 0 && !IsExitCommand(inputs[0]) {
      assert (inputs + more)[1..] == inputs[1..] + more;
      ConversationIsOnline(inputs[1..], more, preprocess);
    }
  }
}
