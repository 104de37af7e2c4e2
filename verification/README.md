# Student-support chatbot: the rule-based responder in Dafny

This project models the decision logic of a small console chatbot
(`chatbot.py`). The user's line is preprocessed into lemma tokens by a
language model. The responder `generate_response` joins those tokens with
single spaces. It then tests fixed keyword groups in a fixed order:
greeting, small talk, time of day, identity, capability, thanks, generic
"help", farewell. The test is Python's plain substring operator `in`, not
whole-word matching. Each of the eight groups owns one canned
reply, and the first group with a keyword in the joined string gives its
reply. When nothing matches, a ninth reply, the fallback, is given. The console loop ends when the line, lower-cased, is `exit` or
`quit`.

Modules:

- `Substring` (`substring.dfy`): Python's `needle in hay` on strings, as a
  character-by-character search (`Contains`). It is proved equal to the
  declarative "some offset starts a copy of the needle", with the facts the
  responder needs: occurrences survive added context, containment is
  transitive, and nothing but "" occurs in "".
- `Tokens` (`tokens.dfy`): `" ".join(tokens)` (`Join`) and its inverse
  `s.split(" ")` (`Split`). It proves the round trips, the length of the
  joined string, and that the join of a run of tokens occurs inside the join
  of any longer sequence holding the run.
- `Responder` (`responder.dfy`): the reply datatype and texts, the keyword
  groups, and the if/elif chain (`Classify`, `GenerateResponse`). It also
  has an independent table-driven reading (`Rules`, `FirstFiring`,
  `Decide`: the first rule that fires wins) and proves the chain equal to it.
  The priority properties are stated on top of that.
- `ResponderExamples` (`examples.dfy`): one concrete token sequence per
  reply, proving that every reply is reachable, and the accidental matches
  that substring matching causes.
- `Session` (`session.dfy`): ASCII lower-casing, the exit-command test, and
  the lines printed for a finite sequence of input lines. The preprocessor
  is a function parameter.

Two properties are worth noting because they follow from substring matching:

- The token "this" gets the greeting, because it holds "hi".
- The small-talk keyword "how are things" holds "hi" too. So it can never
  produce the small-talk reply, because the greeting rule always fires
  first (`ResponderExamples.HowAreThingsNeverSmallTalk`).

The code has nine distinct reply texts.

## Model

| member | source | states |
|---|---|---|
| `Substring.ContainsIff` | chatbot.py:48 | The search used for Python's `in` succeeds exactly when some offset of the query starts a copy of the keyword. |
| `Substring.SearchCorrect` | chatbot.py:48 | Scanning offsets from `i` onward finds the keyword exactly when it occurs at offset `i` or later. |
| `Substring.MatchesAtCorrect` | chatbot.py:48 | The character-by-character comparison at one offset succeeds exactly when that stretch of the query equals the keyword. |
| `Substring.NothingInEmpty` | chatbot.py:56-57 | The empty query contains no keyword other than "", which is why an empty token list falls through every branch. |
| `Substring.ContainsInContext` | chatbot.py:32-53 | A keyword that occurs in a string still occurs after text is added before or after it. |
| `Substring.ContainsTransitive` | chatbot.py:32-53 | A keyword inside a substring of the query is inside the query; this is how "hi" inside "this" or "how are things" triggers the greeting. |
| `Substring.MissingChar` | chatbot.py:32-53 | A keyword with a character that the query lacks does not occur in the query. |
| `Tokens.Join` | chatbot.py:29 | The joined string is "" for no tokens, and otherwise starts with the first token and is as long as all tokens together plus one space between each neighbouring pair. |
| `Tokens.JoinAppend` | chatbot.py:29 | Joining two non-empty runs of tokens puts exactly one space between their joins. |
| `Tokens.JoinSplit` | chatbot.py:29 | Splitting any string on single spaces and joining the pieces gives the string back. |
| `Tokens.SplitJoin` | chatbot.py:29 | For a non-empty list of tokens without spaces, splitting the joined string on spaces gives the tokens back. |
| `Tokens.JoinContainsRun` | chatbot.py:29 | The join of a run of tokens occurs inside the join of any token list that contains that run. |
| `Responder.AnyInIff` | chatbot.py:32 | `any(word in query for word in words)` holds exactly when some word of the group occurs in the query. |
| `Responder.FirstFiring` | chatbot.py:32-57 | The index found is the first rule whose keywords occur in the query: that rule fires, no earlier rule does, and the index is the number of rules when none fires. |
| `Responder.GenerateResponse` | chatbot.py:22-57 | The returned text is the text of the first rule, in source order, whose keywords occur in the joined tokens, or the fallback text when no rule fires. |
| `Responder.ClassifyIsFirstMatch` | chatbot.py:32-57 | The if/elif chain agrees with the first-match rule table on every query, and the rank of its reply is the index of the first rule that fires. |
| `Responder.DecideIff` | chatbot.py:32-57 | In the rule table, rule k's reply is chosen exactly when rule k fires and no earlier rule fires. |
| `Responder.FirstMatchWins` | chatbot.py:32-57 | The chain returns rule k's reply exactly when rule k fires and none of the rules before it fires. |
| `Responder.FallbackIff` | chatbot.py:32-57 | The fallback reply is returned exactly when no keyword of any group occurs in the joined tokens. |
| `Responder.GreetingIff` | chatbot.py:29-33 | The greeting is returned exactly when "hello", "hi", "hey" or "hola" occurs in the joined tokens, whatever else is present. |
| `Responder.HelpMeIsCapability` | chatbot.py:42-49 | A query holding "help me" never gets the generic help reply. It gets the capability reply or an earlier one, and exactly the capability reply when none of the four earlier groups fires. |
| `Responder.HelpIff` | chatbot.py:48-49 | The generic help reply is returned exactly when "help" occurs and none of the six earlier groups fires. |
| `Responder.FarewellIff` | chatbot.py:52-53 | The farewell reply is returned exactly when a farewell keyword occurs and none of the seven earlier groups fires. |
| `Responder.LargerQueryNoLaterRule` | chatbot.py:32-57 | A query that contains another query as a substring is answered by the same rule or an earlier one. |
| `Responder.MoreTokensNoLaterRule` | chatbot.py:29-57 | Adding tokens before or after the input keeps the chosen branch or moves it to an earlier branch. |
| `Responder.NoneInEmpty` | chatbot.py:32-53 | A group of non-empty keywords never matches the empty query. |
| `Responder.EmptyQueryFallback` | chatbot.py:32-57 | The empty query string falls through every branch of the chain to the fallback reply. |
| `Responder.EmptyInputFallback` | chatbot.py:29-57 | An empty token list joins to "" and gets the fallback text. |
| `ResponderExamples.SubstringGreeting` | chatbot.py:32-33 | The single token "this" is greeted, because it holds "hi". |
| `ResponderExamples.HowAreThingsNeverSmallTalk` | chatbot.py:32-35 | A query holding "how are things" always gets the greeting. The small-talk reply therefore needs "how are you", "what's up" or "you doing". |
| `ResponderExamples.CapabilityExample` | chatbot.py:42-43 | The tokens ["help", "me"] get the capability reply, not the generic help reply. |
| `ResponderExamples.ThanksExample` | chatbot.py:44-45 | The tokens ["thank", "lot"] get the thanks reply; these are taken to be the tokens of "Thanks a lot!". |
| `ResponderExamples.EveryReplyReachable` | chatbot.py:32-57 | Each of the nine replies is returned for some token list; a concrete witness is given for each. |
| `Session.Lower` | chatbot.py:72 | ASCII lower-casing keeps the length, leaves no upper-case ASCII letter, and changes only upper-case ASCII letters. |
| `Session.LowerIsWordIff` | chatbot.py:72 | A string lower-cases to a given lower-case word exactly when it spells that word with each letter in either case. |
| `Session.ExitCommandIff` | chatbot.py:72 | The exit test holds exactly when the line is "exit" or "quit" in any mix of cases, with nothing else on the line. |
| `Session.LowerIdempotent` | chatbot.py:72 | Lower-casing twice is the same as lower-casing once. |
| `Session.ExitCommandCaseExamples` | chatbot.py:72 | "exit", "EXIT" and "Quit" end the session. |
| `Session.ExitCommandSpaceExamples` | chatbot.py:72 | "exit ", " quit", "exits" and "" do not end the session. |
| `Session.FirstExit` | chatbot.py:69-74 | The index found is the first exit command, or the number of lines when there is none. |
| `Session.Conversation` | chatbot.py:69-80 | The bot prints one answer for each line before the first exit command, the goodbye line for that command, and nothing more, apart from the `You: ` prompts written by `input`. |
| `Session.NothingAfterExit` | chatbot.py:72-74 | Lines after an exit command are never read and do not change the output. |
| `Session.ConversationIsOnline` | chatbot.py:69-80 | The output for a prefix of the input lines is a prefix of the output for all of them. |

## Left out

- `preprocess_text` (chatbot.py:12-18) is not modelled. Tokenising,
  stop-word and punctuation removal and lemmatisation are done by a language
  model whose behaviour is not visible. `Session.Conversation` takes the
  preprocessor as a function parameter. Nothing is stated about the tokens
  `preprocess_text` returns.
- Loading the language model, and exiting when it is missing
  (chatbot.py:4-9), is not modelled. It is a foreign library call followed
  by process termination.
- Console I/O is not modelled: the welcome banner (chatbot.py:64-67), the
  `You: ` prompt that `input` writes before every line it reads
  (chatbot.py:70), the blocking `input` and `print`. The lines of
  `Session.Conversation` are the bot's own lines, without those prompts.
  `Session.Conversation` works on a finite list of input lines. When the
  lines run out before an exit command, the model just stops; the real
  program would raise `EOFError` on the next `input`.
- `Session.Lower` folds only the ASCII letters A-Z. Python's `str.lower()`
  folds all of Unicode, so `Session.IsExitCommand` is stated for ASCII case
  folding only.
- The examples in `ResponderExamples` assume what the preprocessor produces
  for a sentence (for example ["thank", "lot"] for "Thanks a lot!"). They
  are stated on token lists, not on raw sentences.
- `Responder.FallbackIff`, `Responder.GreetingIff`, `Responder.HelpIff` and
  `Responder.FarewellIff` are stated on the chosen `Reply` value, not on the
  returned text. The nine texts in `Responder.Text` are different strings,
  but the model does not prove that. Measuring the longer literals (up to
  178 characters) is beyond the verifier's resource limit, so the step from
  "the text is the fallback text" back to "the reply is `Fallback`" is not
  proved.
