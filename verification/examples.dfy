/** Concrete queries and what the responder of chatbot.py answers to them:
    one witness per reply, and the accidental matches that substring
    (rather than whole-word) matching produces. */
module ResponderExamples {
  import opened Substring
  import opened Tokens
  import opened Responder

  /** Matching is by substring, not by whole word: the token "this" holds
      "hi" and is greeted. */
  lemma {:induction false} SubstringGreeting()
    ensures Intent(["this"]) == Greeting
  {
    ContainsAt("this", "hi", 1);
    assert GreetingWords[1] == "hi";
    AnyInIff("this", GreetingWords);
  }

  /** The small-talk keyword "how are things" holds "hi", so it is always
      caught by the greeting rule: the small-talk reply needs one of the
      other three small-talk keywords. */
  lemma {:induction false} HowAreThingsNeverSmallTalk(query: string)
    ensures Contains(query, "how are things") ==> Classify(query) == Greeting
    ensures Classify(query) == SmallTalk
        ==> Contains(query, "how are you") || Contains(query, "what's up") || Contains(query, "you doing")
  {
    ContainsAt("how are things", "hi", 9);
    AnyInIff(query, GreetingWords);
    AnyInIff(query, SmallTalkWords);
    assert GreetingWords[1] == "hi";
    if Contains(query, "how are things") {
      ContainsTransitive(query, "how are things", "hi");
    }
  }

  // One witness per reply. A `...Query` lemma evaluates the rules on the
  // literal query string, showing that the rules before the witness's own
  // rule stay silent and its own rule fires; it is stated for a parameter
  // equal to the literal, so that callers do not evaluate the rules again.

  lemma GreetingQuery(q: string)
    requires q == "hello"
    ensures AnyIn(q, GreetingWords)
  {
    assert AnyIn("hello", GreetingWords);
  }

  lemma {:induction false} GreetingExample()
    ensures Intent(["hello"]) == Greeting
  {
    var q := "hello";
    GreetingQuery(q);
  }

  lemma SmallTalkQuery(q: string)
    requires q == "how are you"
    ensures !AnyIn(q, GreetingWords)
    ensures AnyIn(q, SmallTalkWords)
  {
    MissingChar(q, "hello", 'l');
    MissingChar(q, "hi", 'i');
    assert !Contains("how are you", "hey");
    MissingChar(q, "hola", 'l');
    AnyInIff(q, GreetingWords);
    assert AnyIn("how are you", SmallTalkWords);
  }

  lemma {:induction false} SmallTalkExample()
    ensures Intent(["how", "are", "you"]) == SmallTalk
  {
    var q := "how are you";
    assert Join(["how", "are", "you"]) == q;
    SmallTalkQuery(q);
  }

  /** "good morning" has no "h", and every greeting keyword has one. */
  lemma TimeOfDayQuery1(q: string)
    requires q == "good morning"
    ensures !AnyIn(q, GreetingWords)
  {
    MissingChar(q, "hello", 'h');
    MissingChar(q, "hi", 'h');
    MissingChar(q, "hey", 'h');
    MissingChar(q, "hola", 'h');
    AnyInIff(q, GreetingWords);
  }

  /** "good morning" has neither an "h" nor a "y"; every small-talk keyword
      has one of them. */
  lemma TimeOfDayQuery2(q: string)
    requires q == "good morning"
    ensures !AnyIn(q, SmallTalkWords)
    ensures AnyIn(q, TimeOfDayWords)
  {
    MissingChar(q, "how are you", 'h');
    MissingChar(q, "how are things", 'h');
    MissingChar(q, "what's up", 'h');
    MissingChar(q, "you doing", 'y');
    assert AnyIn("good morning", TimeOfDayWords);
  }

  lemma {:induction false} TimeOfDayExample()
    ensures Intent(["good", "morning"]) == TimeOfDay
  {
    var q := "good morning";
    assert Join(["good", "morning"]) == q;
    TimeOfDayQuery1(q);
    TimeOfDayQuery2(q);
  }

  lemma IdentityQuery1(q: string)
    requires q == "your name"
    ensures !AnyIn(q, GreetingWords)
    ensures !AnyIn(q, SmallTalkWords)
    ensures !AnyIn(q, TimeOfDayWords)
  {
    assert !AnyIn("your name", GreetingWords);
    assert !AnyIn("your name", SmallTalkWords);
    assert !AnyIn("your name", TimeOfDayWords);
  }

  lemma IdentityQuery2(q: string)
    requires q == "your name"
    ensures AnyIn(q, IdentityWords)
  {
    assert AnyIn("your name", IdentityWords);
  }

  lemma {:induction false} IdentityExample()
    ensures Intent(["your", "name"]) == Identity
  {
    var q := "your name";
    assert Join(["your", "name"]) == q;
    IdentityQuery1(q);
    IdentityQuery2(q);
  }

  lemma CapabilityQuery1(q: string)
    requires q == "help me"
    ensures !AnyIn(q, GreetingWords)
    ensures !AnyIn(q, SmallTalkWords)
    ensures !AnyIn(q, TimeOfDayWords)
  {
    assert !AnyIn("help me", GreetingWords);
    assert !AnyIn("help me", SmallTalkWords);
    assert !AnyIn("help me", TimeOfDayWords);
  }

  lemma CapabilityQuery2(q: string)
    requires q == "help me"
    ensures !AnyIn(q, IdentityWords)
    ensures AnyIn(q, CapabilityWords)
  {
    assert !AnyIn("help me", IdentityWords);
    assert AnyIn("help me", CapabilityWords);
  }

  /** "help me" gets the capability reply, not the generic help reply. */
  lemma {:induction false} CapabilityExample()
    ensures Intent(["help", "me"]) == Capability
  {
    var q := "help me";
    assert Join(["help", "me"]) == q;
    CapabilityQuery1(q);
    CapabilityQuery2(q);
  }

  lemma ThanksQuery1(q: string)
    requires q == "thank lot"
    ensures !AnyIn(q, GreetingWords)
    ensures !AnyIn(q, SmallTalkWords)
    ensures !AnyIn(q, TimeOfDayWords)
  {
    assert !AnyIn("thank lot", GreetingWords);
    assert !AnyIn("thank lot", SmallTalkWords);
    assert !AnyIn("thank lot", TimeOfDayWords);
  }

  lemma ThanksQuery2(q: string)
    requires q == "thank lot"
    ensures !AnyIn(q, IdentityWords)
    ensures !AnyIn(q, CapabilityWords)
    ensures AnyIn(q, ThanksWords)
  {
    assert !AnyIn("thank lot", IdentityWords);
    assert !AnyIn("thank lot", CapabilityWords);
    assert AnyIn("thank lot", ThanksWords);
  }

  /** The tokens of "Thanks a lot!" are taken to be ["thank", "lot"]: the
      stop word and the punctuation are dropped and "thanks" is reduced to
      its lemma. */
  lemma {:induction false} ThanksExample()
    ensures Intent(["thank", "lot"]) == Thanks
  {
    var q := "thank lot";
    assert Join(["thank", "lot"]) == q;
    ThanksQuery1(q);
    ThanksQuery2(q);
  }

  lemma HelpQuery1(q: string)
    requires q == "help"
    ensures !AnyIn(q, GreetingWords)
    ensures !AnyIn(q, SmallTalkWords)
    ensures !AnyIn(q, TimeOfDayWords)
  {
    assert !AnyIn("help", GreetingWords);
    assert !AnyIn("help", SmallTalkWords);
    assert !AnyIn("help", TimeOfDayWords);
  }

  lemma HelpQuery2(q: string)
    requires q == "help"
    ensures !AnyIn(q, IdentityWords)
    ensures !AnyIn(q, CapabilityWords)
    ensures !AnyIn(q, ThanksWords)
  {
    assert !AnyIn("help", IdentityWords);
    assert !AnyIn("help", CapabilityWords);
    assert !AnyIn("help", ThanksWords);
  }

  lemma HelpQuery3(q: string)
    requires q == "help"
    ensures Contains(q, HelpWord)
  {
    assert Contains("help", HelpWord);
  }

  lemma {:induction false} HelpExample()
    ensures Intent(["help"]) == Help
  {
    var q := "help";
    HelpQuery1(q);
    HelpQuery2(q);
    HelpQuery3(q);
  }

  lemma FarewellQuery1(q: string)
    requires q == "bye"
    ensures !AnyIn(q, GreetingWords)
    ensures !AnyIn(q, SmallTalkWords)
    ensures !AnyIn(q, TimeOfDayWords)
  {
    assert !AnyIn("bye", GreetingWords);
    assert !AnyIn("bye", SmallTalkWords);
    assert !AnyIn("bye", TimeOfDayWords);
  }

  lemma FarewellQuery2(q: string)
    requires q == "bye"
    ensures !AnyIn(q, IdentityWords)
    ensures !AnyIn(q, CapabilityWords)
    ensures !AnyIn(q, ThanksWords)
  {
    assert !AnyIn("bye", IdentityWords);
    assert !AnyIn("bye", CapabilityWords);
    assert !AnyIn("bye", ThanksWords);
  }

  lemma FarewellQuery3(q: string)
    requires q == "bye"
    ensures !Contains(q, HelpWord)
    ensures AnyIn(q, FarewellWords)
  {
    assert !Contains("bye", HelpWord);
    assert AnyIn("bye", FarewellWords);
  }

  lemma {:induction false} FarewellExample()
    ensures Intent(["bye"]) == Farewell
  {
    var q := "bye";
    FarewellQuery1(q);
    FarewellQuery2(q);
    FarewellQuery3(q);
  }

  lemma FallbackQuery1(q: string)
    requires q == "course"
    ensures !AnyIn(q, GreetingWords)
    ensures !AnyIn(q, SmallTalkWords)
    ensures !AnyIn(q, TimeOfDayWords)
  {
    assert !AnyIn("course", GreetingWords);
    assert !AnyIn("course", SmallTalkWords);
    assert !AnyIn("course", TimeOfDayWords);
  }

  lemma FallbackQuery2(q: string)
    requires q == "course"
    ensures !AnyIn(q, IdentityWords)
    ensures !AnyIn(q, CapabilityWords)
    ensures !AnyIn(q, ThanksWords)
  {
    assert !AnyIn("course", IdentityWords);
    assert !AnyIn("course", CapabilityWords);
    assert !AnyIn("course", ThanksWords);
  }

  lemma FallbackQuery3(q: string)
    requires q == "course"
    ensures !Contains(q, HelpWord)
    ensures !AnyIn(q, FarewellWords)
  {
    assert !Contains("course", HelpWord);
    assert !AnyIn("course", FarewellWords);
  }

  lemma {:induction false} FallbackExample()
    ensures Intent(["course"]) == Fallback
  {
    var q := "course";
    FallbackQuery1(q);
    FallbackQuery2(q);
    FallbackQuery3(q);
  }

  /** A token sequence answered with the given reply. */
  function Witness(r: Reply): seq<string>
  {
    match r
    case Greeting => ["hello"]
    case SmallTalk => ["how", "are", "you"]
    case TimeOfDay => ["good", "morning"]
    case Identity => ["your", "name"]
    case Capability => ["help", "me"]
    case Thanks => ["thank", "lot"]
    case Help => ["help"]
    case Farewell => ["bye"]
    case Fallback => ["course"]
  }

  /** Every one of the nine replies is returned for some input. */
  lemma {:induction false} EveryReplyReachable(r: Reply)
    ensures Intent(Witness(r)) == r
    ensures exists tokens :: Intent(tokens) == r
  {
    match r
    case Greeting => GreetingExample();
    case SmallTalk => SmallTalkExample();
    case TimeOfDay => TimeOfDayExample();
    case Identity => IdentityExample();
    case Capability => CapabilityExample();
    case Thanks => ThanksExample();
    case Help => HelpExample();
    case Farewell => FarewellExample();
    case Fallback => FallbackExample();
  }
}
