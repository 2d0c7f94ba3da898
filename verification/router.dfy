/**
  The keyword intent router: the lower-cased message is searched for keywords of five
  domains in a fixed priority order, and the first domain with a hit wins.
*/
module Router {
  import opened Wrappers
  import opened Text

  datatype AgentKind = Startup | Tech | Marketing | Business | Content

  const StartupKeywords: seq<string> := ["استارتاپ", "mvp", "بیزنس", "کسب", "بازار", "درآمد"]
  const TechKeywords: seq<string> := ["nextjs", "react", "prisma", "llm", "ai", "devops", "server"]
  const MarketingKeywords: seq<string> := ["اینستاگرام", "بازاریابی", "محتوا", "تبلیغات", "کمپین"]
  const BusinessKeywords: seq<string> := ["تحلیل", "swot", "رقبا", "فرصت", "استراتژی"]
  const ContentKeywords: seq<string> := ["مقاله", "متن", "خلاصه", "اسکریپت"]

  /** The classification rules, highest priority first. */
  const Rules: seq<(AgentKind, seq<string>)> :=
    [(Startup, StartupKeywords), (Tech, TechKeywords), (Marketing, MarketingKeywords),
     (Business, BusinessKeywords), (Content, ContentKeywords)]

  /** Some keyword of the list occurs in `text`. */
  predicate MentionsAny(text: string, keywords: seq<string>) {
    exists k | k in keywords :: Contains(text, k)
  }

  /** The domain of the first rule whose keywords occur in `text`. */
  function FirstMatch(text: string, rules: seq<(AgentKind, seq<string>)>): (r: Option<AgentKind>)
    ensures r.None? <==> forall i :: 0 <= i < |rules| ==> !MentionsAny(text, rules[i].1)
    ensures r.Some? ==> exists i :: && 0 <= i < |rules| && rules[i].0 == r.value && MentionsAny(text, rules[i].1)
                                   && forall j :: 0 <= j < i ==> !MentionsAny(text, rules[j].1)
  {
    if rules == [] then None
    else if MentionsAny(text, rules[0].1) then Some(rules[0].0)
    else
      var r := FirstMatch(text, rules[1..]);
      assert forall i :: 1 <= i < |rules| ==> rules[i] == rules[1..][i - 1];
      if r.Some? then
        var i :| && 0 <= i < |rules[1..]| && rules[1..][i].0 == r.value && MentionsAny(text, rules[1..][i].1)
                 && forall j :: 0 <= j < i ==> !MentionsAny(text, rules[1..][j].1);
        assert forall j :: 0 <= j < i + 1 ==> !MentionsAny(text, rules[j].1);
        r
      else r
  }

  /** `detectAgent`: each domain is chosen exactly when its keywords occur and no keyword of a
      higher-priority domain does; text with no keyword at all goes to `startup`. */
  function DetectAgent(message: string): (r: AgentKind)
    ensures var lower := Lower(message);
      && (r == Tech <==>
            !MentionsAny(lower, StartupKeywords) && MentionsAny(lower, TechKeywords))
      && (r == Marketing <==>
            !MentionsAny(lower, StartupKeywords) && !MentionsAny(lower, TechKeywords)
            && MentionsAny(lower, MarketingKeywords))
      && (r == Business <==>
            !MentionsAny(lower, StartupKeywords) && !MentionsAny(lower, TechKeywords)
            && !MentionsAny(lower, MarketingKeywords) && MentionsAny(lower, BusinessKeywords))
      && (r == Content <==>
            !MentionsAny(lower, StartupKeywords) && !MentionsAny(lower, TechKeywords)
            && !MentionsAny(lower, MarketingKeywords) && !MentionsAny(lower, BusinessKeywords)
            && MentionsAny(lower, ContentKeywords))
      && (r == Startup <==>
            MentionsAny(lower, StartupKeywords)
            || (!MentionsAny(lower, TechKeywords) && !MentionsAny(lower, MarketingKeywords)
                && !MentionsAny(lower, BusinessKeywords) && !MentionsAny(lower, ContentKeywords)))
  {
    FirstMatchOverRules(Lower(message));
    FirstMatch(Lower(message), Rules).GetOr(Startup)
  }

  /** Walking the rule table is the if-chain over the five keyword lists. */
  lemma FirstMatchOverRules(text: string)
    ensures FirstMatch(text, Rules) ==
      if MentionsAny(text, StartupKeywords) then Some(Startup)
      else if MentionsAny(text, TechKeywords) then Some(Tech)
      else if MentionsAny(text, MarketingKeywords) then Some(Marketing)
      else if MentionsAny(text, BusinessKeywords) then Some(Business)
      else if MentionsAny(text, ContentKeywords) then Some(Content)
      else None
  {
    var r1 := [(Tech, TechKeywords), (Marketing, MarketingKeywords),
               (Business, BusinessKeywords), (Content, ContentKeywords)];
    var r2 := [(Marketing, MarketingKeywords), (Business, BusinessKeywords), (Content, ContentKeywords)];
    var r3 := [(Business, BusinessKeywords), (Content, ContentKeywords)];
    var r4 := [(Content, ContentKeywords)];
    assert Rules[1..] == r1 && r1[1..] == r2 && r2[1..] == r3 && r3[1..] == r4 && r4[1..] == [];
    assert FirstMatch(text, r4) == if MentionsAny(text, ContentKeywords) then Some(Content) else None;
    assert FirstMatch(text, r3) == if MentionsAny(text, BusinessKeywords) then Some(Business) else FirstMatch(text, r4);
    assert FirstMatch(text, r2) == if MentionsAny(text, MarketingKeywords) then Some(Marketing) else FirstMatch(text, r3);
    assert FirstMatch(text, r1) == if MentionsAny(text, TechKeywords) then Some(Tech) else FirstMatch(text, r2);
  }

  /** The marketing keyword `بازاریابی` begins with the startup keyword `بازار`, so a message
      containing it is always routed to `startup`; that keyword never yields `marketing`. */
  lemma MarketingKeywordShadowed(message: string)
    requires Contains(Lower(message), "بازاریابی")
    ensures DetectAgent(message) == Startup
  {
    ContainsPrefix(Lower(message), "بازاریابی", "بازار");
    assert "بازار" in StartupKeywords;
  }

  /** Substring matching catches `ai` inside ordinary words, in any letter case: with no startup
      keyword present, such a message is routed to `tech`. */
  lemma AiInsideWordsIsTech(message: string)
    requires Contains(Lower(message), "ai")
    requires !MentionsAny(Lower(message), StartupKeywords)
    ensures DetectAgent(message) == Tech
  {
    assert "ai" in TechKeywords;
  }

  /** Latin keywords match in any letter case. */
  lemma UpperCaseKeywords()
    ensures DetectAgent("MVP") == Startup
  {
    assert "mvp" in StartupKeywords && Contains(Lower("MVP"), "mvp");
  }

  /** A startup keyword beats a tech keyword, whichever comes first in the text. */
  lemma StartupBeatsTech()
    ensures DetectAgent("devops mvp") == Startup
  {
    assert Lower("devops mvp") == "devops mvp";
    assert OccursAt("devops mvp", "mvp", 7);
    ContainsIffOccurs("devops mvp", "mvp");
    assert "mvp" in StartupKeywords;
  }

  /** Text without any keyword goes to `startup`. */
  lemma EmptyTextIsStartup()
    ensures DetectAgent("") == Startup
  {
  }

  /** Every letter of a keyword that occurs in a text is a letter of that text. */
  lemma LettersOfOccurrence(text: string, k: string, c: char)
    requires c in k
    ensures Contains(text, k) ==> c in text
  {
    ContainsIffOccurs(text, k);
    if Contains(text, k) {
      var i :| OccursAt(text, k, i);
      var j :| 0 <= j < |k| && k[j] == c;
      assert text[i..i + |k|][j] == c;
    }
  }

  /** `email` contains `ai` and no startup keyword, so it goes to `tech`. */
  lemma EmailIsTech()
    ensures DetectAgent("email") == Tech
  {
    assert Lower("email") == "email";
    assert OccursAt("email", "ai", 2);
    ContainsIffOccurs("email", "ai");
    assert "ai" in TechKeywords;
    forall k | k in StartupKeywords
      ensures !Contains("email", k)
    {
      var c := if k == "mvp" then 'v' else k[0];
      LettersOfOccurrence("email", k, c);
    }
  }

  /** So does `SAID`, once lower-cased. */
  lemma SaidIsTech()
    ensures DetectAgent("SAID") == Tech
  {
    assert Lower("SAID") == "said";
    assert OccursAt("said", "ai", 1);
    ContainsIffOccurs("said", "ai");
    assert "ai" in TechKeywords;
    forall k | k in StartupKeywords
      ensures !Contains("said", k)
    {
      var c := if k == "mvp" then 'v' else k[0];
      LettersOfOccurrence("said", k, c);
    }
  }

  /** `SWOT` is a business keyword in any case and mentions nothing of higher priority. */
  lemma SwotIsBusiness()
    ensures DetectAgent("SWOT") == Business
  {
    assert Lower("SWOT") == "swot";
    assert Contains("swot", "swot");
    assert "swot" in BusinessKeywords;
    assert !MentionsAny("swot", StartupKeywords) by {
      forall k | k in StartupKeywords
        ensures !Contains("swot", k)
      {
        LettersOfOccurrence("swot", k, k[0]);
      }
    }
    assert !MentionsAny("swot", TechKeywords) by {
      forall k | k in TechKeywords
        ensures !Contains("swot", k)
      {
        var c := if k == "server" then 'e' else k[0];
        LettersOfOccurrence("swot", k, c);
      }
    }
    assert !MentionsAny("swot", MarketingKeywords) by {
      forall k | k in MarketingKeywords
        ensures !Contains("swot", k)
      {
        LettersOfOccurrence("swot", k, k[0]);
      }
    }
  }
}
