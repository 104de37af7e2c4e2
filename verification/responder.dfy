/** The responder of chatbot.py (`generate_response`): the preprocessed tokens
    are joined with spaces and the joined string is tested against fixed
    keyword groups in a fixed priority order. The first group with a keyword
    that occurs in the string as a substring picks the reply. If no group
    matches, a fallback reply is given. */
module Responder {
  import opened Substring
  import opened Tokens

  /** The nine canned replies, one per branch of the selector. */
  datatype Reply =
    | Greeting | SmallTalk | TimeOfDay | Identity | Capability
    | Thanks | Help | Farewell | Fallback

  /** The text chatbot.py returns for each reply. */
  function Text(r: Reply): string
  {
    match r
    case Greeting => "Hello there! How can I assist you with your university-related questions today?"
    case SmallTalk => "As an AI, I don't have feelings, but I'm ready to help you! How can I assist you?"
    case TimeOfDay => "A pleasant time of day to you too! What's on your mind?"
    case Identity => "I am an AI-powered chatbot designed to assist students with their inquiries regarding university services, courses, and general information."
    case Capability => "I can answer common questions about university resources, course information, admissions, and guide you to the right departments. How can I help you specifically?"
    case Thanks => "You're most welcome! I'm glad I could help."
    case Help => "Yes, I'm here to help! Please tell me what you need assistance with, for example, 'Where can I find information about financial aid?' or 'What are the requirements for course X?'"
    case Farewell => "Goodbye! Feel free to return anytime if you have more questions."
    case Fallback => "I'm designed to answer questions related to student support services. Could you please rephrase your question, or ask about a specific university topic?"
  }

  const GreetingWords: seq<string> := ["hello", "hi", "hey", "hola"]
  const SmallTalkWords: seq<string> := ["how are you", "how are things", "what's up", "you doing"]
  const TimeOfDayWords: seq<string> := ["good morning", "good afternoon", "good evening"]
  const IdentityWords: seq<string> := ["who are you", "what are you", "your name"]
  const CapabilityWords: seq<string> := ["what can you do", "help me", "your function", "abilities"]
  const ThanksWords: seq<string> := ["thank", "thanks", "appreciate"]
  /** The generic help branch tests one word with a plain `in`. */
  const HelpWord: string := "help"
  const FarewellWords: seq<string> := ["bye", "goodbye", "farewell", "see you"]

  /** Python's `any(word in query for word in words)`, scanning the words
      left to right. */
  predicate AnyIn(query: string, words: seq<string>)
  {
    |words| > 0 && (Contains(query, words[0]) || AnyIn(query, words[1..]))
  }

  /** The scan finds a word exactly when some word of the group occurs in
      the query. */
  lemma {:induction false} AnyInIff(query: string, words: seq<string>)
    ensures AnyIn(query, words) <==> exists i :: 0 <= i < |words| && Contains(query, words[i])
  {
    if |words| > 0 {
      AnyInIff(query, words[1..]);
      if exists i :: 0 <= i < |words| && Contains(query, words[i]) {
        var i :| 0 <= i < |words| && Contains(query, words[i]);
        if i > 0 {
          assert words[1..][i - 1] == words[i];
        }
      }
      if AnyIn(query, words[1..]) {
        var i :| 0 <= i < |words[1..]| && Contains(query, words[1..][i]);
        assert words[i + 1] == words[1..][i];
      }
    }
  }

  /** The if/elif chain of the selector, over the joined query string. */
  function Classify(query: string): Reply
  {
    if AnyIn(query, GreetingWords) then Greeting
    else if AnyIn(query, SmallTalkWords) then SmallTalk
    else if AnyIn(query, TimeOfDayWords) then TimeOfDay
    else if AnyIn(query, IdentityWords) then Identity
    else if AnyIn(query, CapabilityWords) then Capability
    else if AnyIn(query, ThanksWords) then Thanks
    else if Contains(query, HelpWord) then Help
    else if AnyIn(query, FarewellWords) then Farewell
    else Fallback
  }

  /** The reply the selector picks for a token sequence. */
  function Intent(tokens: seq<string>): Reply
  {
    Classify(Join(tokens))
  }

  // ---------------------------------------------------------------------
  // An independent, table-driven reading of the same selector: a list of
  // (keywords, reply) rules, and "the first rule with a keyword in the
  // query wins, otherwise the fallback".

  datatype Rule = Rule(keywords: seq<string>, reply: Reply)

  /** The rules in the order chatbot.py tests them. */
  const Rules: seq<Rule> := [
    Rule(GreetingWords, Greeting),
    Rule(SmallTalkWords, SmallTalk),
    Rule(TimeOfDayWords, TimeOfDay),
    Rule(IdentityWords, Identity),
    Rule(CapabilityWords, Capability),
    Rule(ThanksWords, Thanks),
    Rule([HelpWord], Help),
    Rule(FarewellWords, Farewell)
  ]

  /** Rule `k` of `Rules` has a keyword that occurs in the query. */
  predicate Fires(query: string, k: int)
  {
    0 <= k < |Rules| && AnyIn(query, Rules[k].keywords)
  }

  /** Index of the first rule that fires, or `|rules|` when none does. */
  function FirstFiring(rules: seq<Rule>, query: string): (k: nat)
    ensures k <= |rules|
    ensures k < |rules| ==> AnyIn(query, rules[k].keywords)
    ensures forall j :: 0 <= j < k ==> !AnyIn(query, rules[j].keywords)
    decreases |rules|
  {
    if |rules| == 0 then 0
    else if AnyIn(query, rules[0].keywords) then 0
    else 1 + FirstFiring(rules[1..], query)
  }

  /** The reply of the first rule that fires, or the fallback. */
  function Decide(rules: seq<Rule>, query: string): Reply
  {
    var k := FirstFiring(rules, query);
    if k < |rules| then rules[k].reply else Fallback
  }

  /** Position of a reply in the priority order; the fallback comes last. */
  function Rank(r: Reply): nat
  {
    match r
    case Greeting => 0
    case SmallTalk => 1
    case TimeOfDay => 2
    case Identity => 3
    case Capability => 4
    case Thanks => 5
    case Help => 6
    case Farewell => 7
    case Fallback => 8
  }

  /** Python's `generate_response(tokens)`: the canned text of the first rule
      whose keywords occur in the joined tokens, or the fallback text. */
  function GenerateResponse(tokens: seq<string>): (r: string)
    ensures r == Text(Decide(Rules, Join(tokens)))
  {
    ClassifyIsFirstMatch(Join(tokens));
    Text(Intent(tokens))
  }

  // ---------------------------------------------------------------------
  // Properties

  /** The if/elif chain and the rule table agree on every query, and the
      rank of the chosen reply is the index of the first rule that fires. */
  lemma ClassifyIsFirstMatch(query: string)
    ensures Classify(query) == Decide(Rules, query)
    ensures Rank(Classify(query)) == FirstFiring(Rules, query)
  {
    var f := FirstFiring(Rules, query);
    assert Rules[0].keywords == GreetingWords;
    assert Rules[1].keywords == SmallTalkWords;
    assert Rules[2].keywords == TimeOfDayWords;
    assert Rules[3].keywords == IdentityWords;
    assert Rules[4].keywords == CapabilityWords;
    assert Rules[5].keywords == ThanksWords;
    assert AnyIn(query, Rules[6].keywords) <==> Contains(query, HelpWord);
    assert Rules[7].keywords == FarewellWords;
    var c := Classify(query);
    assert Rank(c) == f;
    if f < |Rules| {
      assert Rules[f].reply == c;
    }
  }

  /** Each rule's position in the table is the rank of its reply. */
  lemma RuleRanks(k: nat)
    requires k < |Rules|
    ensures Rank(Rules[k].reply) == k
  {
    if k == 0 {} else if k == 1 {} else if k == 2 {} else if k == 3 {}
    else if k == 4 {} else if k == 5 {} else if k == 6 {} else {}
  }

  /** In the rule table, rule `k`'s reply is decided exactly when rule `k`
      fires and no earlier rule does. */
  lemma DecideIff(query: string, k: nat)
    requires k < |Rules|
    ensures Decide(Rules, query) == Rules[k].reply
        <==> Fires(query, k) && forall j :: 0 <= j < k ==> !Fires(query, j)
  {
    RuleRanks(k);
    var f := FirstFiring(Rules, query);
    if Decide(Rules, query) == Rules[k].reply {
      if f < |Rules| {
        RuleRanks(f);
        assert Rank(Rules[f].reply) == Rank(Rules[k].reply);
      }
      assert f == k;
    }
    if Fires(query, k) && forall j :: 0 <= j < k ==> !Fires(query, j) {
      assert f <= k;
      if f < k {
        assert Fires(query, f);
      }
      assert f == k;
    }
  }

  /** First match wins: the reply of rule `k` is chosen exactly when rule
      `k` fires and no earlier rule does. */
  lemma FirstMatchWins(query: string, k: nat)
    requires k < |Rules|
    ensures Classify(query) == Rules[k].reply
        <==> Fires(query, k) && forall j :: 0 <= j < k ==> !Fires(query, j)
  {
    ClassifyIsFirstMatch(query);
    DecideIff(query, k);
  }

  /** The fallback is chosen exactly when no keyword of any rule occurs. */
  lemma FallbackIff(tokens: seq<string>)
    ensures Intent(tokens) == Fallback
        <==> forall k, i :: 0 <= k < |Rules| && 0 <= i < |Rules[k].keywords|
               ==> !Contains(Join(tokens), Rules[k].keywords[i])
  {
    var q := Join(tokens);
    ClassifyIsFirstMatch(q);
    var f := FirstFiring(Rules, q);
    if f < |Rules| {
      assert Rank(Rules[f].reply) == f;
      AnyInIff(q, Rules[f].keywords);
      var i :| 0 <= i < |Rules[f].keywords| && Contains(q, Rules[f].keywords[i]);
    } else {
      forall k, i | 0 <= k < |Rules| && 0 <= i < |Rules[k].keywords|
        ensures !Contains(q, Rules[k].keywords[i])
      {
        assert !AnyIn(q, Rules[k].keywords);
        AnyInIff(q, Rules[k].keywords);
      }
    }
  }

  /** A greeting keyword anywhere in the joined string wins over every other
      keyword in it. */
  lemma GreetingIff(tokens: seq<string>)
    ensures Intent(tokens) == Greeting
        <==> exists i :: 0 <= i < |GreetingWords| && Contains(Join(tokens), GreetingWords[i])
  {
    AnyInIff(Join(tokens), GreetingWords);
  }

  /** "help me" is a capability keyword, so a query holding it never gets
      the generic help reply: it gets the capability reply unless an earlier
      rule fires. */
  lemma HelpMeIsCapability(tokens: seq<string>)
    requires Contains(Join(tokens), "help me")
    ensures Intent(tokens) != Help
    ensures Rank(Intent(tokens)) <= Rank(Capability)
    ensures (forall j :: 0 <= j < 4 ==> !Fires(Join(tokens), j)) ==> Intent(tokens) == Capability
  {
    var q := Join(tokens);
    assert CapabilityWords[1] == "help me";
    assert Fires(q, 4);
    ClassifyIsFirstMatch(q);
    if forall j :: 0 <= j < 4 ==> !Fires(q, j) {
      FirstMatchWins(q, 4);
    }
  }

  /** The generic help reply needs "help" in the query and no earlier rule
      firing. */
  lemma HelpIff(tokens: seq<string>)
    ensures Intent(tokens) == Help
        <==> Contains(Join(tokens), "help") && forall j :: 0 <= j < 6 ==> !Fires(Join(tokens), j)
  {
    var q := Join(tokens);
    FirstMatchWins(q, 6);
    assert AnyIn(q, Rules[6].keywords) <==> Contains(q, "help");
  }

  /** The farewell reply needs a farewell keyword and none of the seven
      earlier rules firing. */
  lemma FarewellIff(tokens: seq<string>)
    ensures Intent(tokens) == Farewell
        <==> AnyIn(Join(tokens), FarewellWords) && forall j :: 0 <= j < 7 ==> !Fires(Join(tokens), j)
  {
    FirstMatchWins(Join(tokens), 7);
  }

  /** A query that holds another query as a substring is answered by the
      same rule or an earlier one: every rule that fires on the smaller
      query also fires on the larger one. */
  lemma {:induction false} LargerQueryNoLaterRule(small: string, large: string)
    requires Contains(large, small)
    ensures Rank(Classify(large)) <= Rank(Classify(small))
  {
    ClassifyIsFirstMatch(small);
    ClassifyIsFirstMatch(large);
    var f := FirstFiring(Rules, small);
    if f < |Rules| {
      var ws := Rules[f].keywords;
      AnyInIff(small, ws);
      AnyInIff(large, ws);
      var i :| 0 <= i < |ws| && Contains(small, ws[i]);
      ContainsTransitive(large, small, ws[i]);
    }
  }

  /** Adding tokens before or after the input keeps the chosen rule or moves
      it to an earlier one: keywords already present stay present. */
  lemma {:induction false} MoreTokensNoLaterRule(before: seq<string>, tokens: seq<string>, after: seq<string>)
    ensures Rank(Intent(before + tokens + after)) <= Rank(Intent(tokens))
  {
    JoinContainsRun(before, tokens, after);
    LargerQueryNoLaterRule(Join(tokens), Join(before + tokens + after));
  }

  /** A group of non-empty keywords has none in the empty query. */
  lemma {:induction false} NoneInEmpty(words: seq<string>)
    requires forall i :: 0 <= i < |words| ==> words[i] != ""
    ensures !AnyIn("", words)
  {
    forall i | 0 <= i < |words|
      ensures !Contains("", words[i])
    {
      NothingInEmpty(words[i]);
    }
    AnyInIff("", words);
  }

  /** No keyword is empty, so the empty query matches no rule. */
  lemma {:induction false} EmptyQueryFallback(q: string)
    requires q == ""
    ensures Classify(q) == Fallback
  {
    NoneInEmpty(GreetingWords);
    NoneInEmpty(SmallTalkWords);
    NoneInEmpty(TimeOfDayWords);
    NoneInEmpty(IdentityWords);
    NoneInEmpty(CapabilityWords);
    NoneInEmpty(ThanksWords);
    NothingInEmpty(HelpWord);
    NoneInEmpty(FarewellWords);
  }

  /** With no tokens at all the query is empty and the fallback text is
      returned. */
  lemma {:induction false} EmptyInputFallback()
    ensures Intent([]) == Fallback
    ensures GenerateResponse([]) == Text(Fallback)
  {
    EmptyQueryFallback(Join([]));
  }
}
