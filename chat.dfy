/** The assistant chat route: the keyword fallback that picks one of ten
    canned replies, the window of recent history sent as context, and the
    list of models tried in order. The models are an oracle that answers a
    prompt or fails; the canned replies are named by their topic. */
module Chat {
  import opened Wrappers
  import opened Strings
  import opened Seqs

  // ---------------------------------------------------------------------
  // Keyword fallback

  /** The ten canned replies of `get_fallback_response`. */
  datatype Topic =
    | Founder | Pricing | HowItWorks | AiFeatures | Contact
    | GettingStarted | ResumeScreening | Integrations | Benefits | General

  const FOUNDER_WORDS := ["ceo", "founder", "owner", "who run", "who made", "who created", "who built", "nikhil"]
  const PRICING_WORDS := ["price", "pricing", "cost", "plan", "subscription", "pay", "money", "$"]
  const HOW_WORDS := ["work", "how", "what", "feature", "do", "does"]
  const AI_WORDS := ["ai", "interview", "video", "automation", "smart", "intelligent"]
  const CONTACT_WORDS := ["contact", "support", "help", "talk", "human", "call", "speak", "email"]
  const START_WORDS := ["start", "begin", "sign up", "register", "trial", "demo", "try"]
  const RESUME_WORDS := ["resume", "cv", "screen", "candidate", "applicant"]
  const INTEGRATION_WORDS := ["integrat", "ats", "api", "connect", "sync"]
  const BENEFIT_WORDS := ["why", "benefit", "better", "advantage", "save"]

  /** The keyword groups, in the order they are tested, each with the
      reply it selects. */
  const KEYWORD_GROUPS: seq<(Topic, seq<string>)> := [
    (Founder, FOUNDER_WORDS), (Pricing, PRICING_WORDS), (HowItWorks, HOW_WORDS), (AiFeatures, AI_WORDS),
    (Contact, CONTACT_WORDS), (GettingStarted, START_WORDS), (ResumeScreening, RESUME_WORDS),
    (Integrations, INTEGRATION_WORDS), (Benefits, BENEFIT_WORDS)
  ]

  /** `any(word in text for word in words)`: some keyword occurs anywhere
      in the text, inside a longer word too. */
  predicate MentionsAny(text: string, words: seq<string>) {
    words != [] && (Contains(text, words[0]) || MentionsAny(text, words[1..]))
  }

  lemma {:induction false} MentionsAnyIff(text: string, words: seq<string>)
    ensures MentionsAny(text, words) <==> exists i :: 0 <= i < |words| && Contains(text, words[i])
  {
    if words != [] {
      MentionsAnyIff(text, words[1..]);
      assert forall i :: 1 <= i < |words| ==> words[i] == words[1..][i - 1];
    }
  }

  /** The reply of the first group that the text mentions; the general
      reply when it mentions none. */
  function TopicOf(text: string, groups: seq<(Topic, seq<string>)>): Topic {
    if groups == [] then General
    else if MentionsAny(text, groups[0].1) then groups[0].0
    else TopicOf(text, groups[1..])
  }

  /** `get_fallback_response`, on the lowercased message. */
  function FallbackTopic(message: string): Topic {
    TopicOf(Lower(message), KEYWORD_GROUPS)
  }

  /** The cascade picks the first group mentioned: the reply is the general
      one exactly when no group is mentioned, and otherwise the reply of a
      mentioned group with no mentioned group before it. */
  lemma {:induction false} TopicOfChosen(text: string, groups: seq<(Topic, seq<string>)>)
    requires forall i :: 0 <= i < |groups| ==> groups[i].0 != General
    ensures TopicOf(text, groups) == General <==> forall i :: 0 <= i < |groups| ==> !MentionsAny(text, groups[i].1)
    ensures TopicOf(text, groups) != General ==>
              exists i :: && 0 <= i < |groups| && MentionsAny(text, groups[i].1)
                          && TopicOf(text, groups) == groups[i].0
                          && forall k :: 0 <= k < i ==> !MentionsAny(text, groups[k].1)
  {
    if groups != [] && !MentionsAny(text, groups[0].1) {
      var rest := groups[1..];
      TopicOfChosen(text, rest);
      assert forall i :: 1 <= i < |groups| ==> groups[i] == rest[i - 1];
      if TopicOf(text, rest) != General {
        var j :| && 0 <= j < |rest| && MentionsAny(text, rest[j].1) && TopicOf(text, rest) == rest[j].0
                 && forall k :: 0 <= k < j ==> !MentionsAny(text, rest[k].1);
        assert groups[j + 1] == rest[j];
      }
    }
  }

  /** No group selects the general reply, so it is given exactly when the
      lowercased message mentions no keyword of any group. */
  lemma FallbackIsFirstMentioned(message: string)
    ensures FallbackTopic(message) == General <==>
              forall i :: 0 <= i < |KEYWORD_GROUPS| ==> !MentionsAny(Lower(message), KEYWORD_GROUPS[i].1)
    ensures FallbackTopic(message) != General ==>
              exists i :: && 0 <= i < |KEYWORD_GROUPS| && MentionsAny(Lower(message), KEYWORD_GROUPS[i].1)
                          && FallbackTopic(message) == KEYWORD_GROUPS[i].0
                          && forall k :: 0 <= k < i ==> !MentionsAny(Lower(message), KEYWORD_GROUPS[k].1)
  {
    TopicOfChosen(Lower(message), KEYWORD_GROUPS);
  }

  /** Keywords match inside longer words and the AI group is tested
      before the contact group, so a message asking about email gets the
      reply about AI features. */
  lemma EmailGetsAiReply(message: string)
    requires IsEmail(Lower(message))
    ensures FallbackTopic(message) == AiFeatures
  {
    var t := Lower(message);
    EmailMissesFounder(t);
    EmailMissesPricing(t);
    EmailMissesHow(t);
    assert OccursAt(t, "ai", 2) by {
      assert t[2..4] == ['a', 'i'];
    }
    AiGroupReached(t);
  }

  /** A text that mentions none of the first three groups and holds "ai"
      gets the reply about AI features. */
  lemma AiGroupReached(t: string)
    requires !MentionsAny(t, FOUNDER_WORDS) && !MentionsAny(t, PRICING_WORDS) && !MentionsAny(t, HOW_WORDS)
    requires exists i :: OccursAt(t, "ai", i)
    ensures TopicOf(t, KEYWORD_GROUPS) == AiFeatures
  {
    var g := KEYWORD_GROUPS;
    assert g[0].1 == FOUNDER_WORDS && g[1].1 == PRICING_WORDS && g[2].1 == HOW_WORDS;
    assert g[3] == (AiFeatures, AI_WORDS);
    assert TopicOf(t, g) == TopicOf(t, g[1..]);
    assert TopicOf(t, g[1..]) == TopicOf(t, g[2..]);
    assert TopicOf(t, g[2..]) == TopicOf(t, g[3..]);
    assert Contains(t, AI_WORDS[0]);
    assert MentionsAny(t, g[3..][0].1);
  }

  /** `t` spells "email", letter by letter. */
  predicate IsEmail(t: string) {
    |t| == 5 && t[0] == 'e' && t[1] == 'm' && t[2] == 'a' && t[3] == 'i' && t[4] == 'l'
  }

  /** "email" holds no keyword of the founder group, of the pricing group
      and of the how-it-works group. */
  lemma EmailMissesFounder(t: string)
    requires IsEmail(t)
    ensures !MentionsAny(t, FOUNDER_WORDS)
  {
    NoWordIn(t, FOUNDER_WORDS);
  }

  lemma EmailMissesPricing(t: string)
    requires IsEmail(t)
    ensures !MentionsAny(t, PRICING_WORDS)
  {
    NoWordIn(t, PRICING_WORDS);
  }

  lemma EmailMissesHow(t: string)
    requires IsEmail(t)
    ensures !MentionsAny(t, HOW_WORDS)
  {
    NoWordIn(t, HOW_WORDS);
  }

  /** No word of `words` occurs in `t` when the first letter of each word
      is missing from every place in `t` where the word would fit. */
  lemma {:induction false} NoWordIn(t: string, words: seq<string>)
    requires forall j :: 0 <= j < |words| ==> words[j] != ""
    requires forall j, i :: 0 <= j < |words| && 0 <= i && i + |words[j]| <= |t| ==> t[i] != words[j][0]
    ensures !MentionsAny(t, words)
  {
    if words != [] {
      var w := words[0];
      forall i | 0 <= i ensures !OccursAt(t, w, i) {
        if OccursAt(t, w, i) {
          OccurrenceStartsWithFirst(t, w, i);
          assert false;
        }
      }
      NoWordIn(t, words[1..]);
    }
  }

  lemma OccurrenceStartsWithFirst(t: string, w: string, i: int)
    requires w != "" && OccursAt(t, w, i)
    ensures t[i] == w[0]
  {
    assert t[i..i + |w|][0] == t[i];
  }

  // ---------------------------------------------------------------------
  // History window

  /** An entry of the history the client sends. */
  datatype Message = Message(sender: Option<string>, text: Option<string>)

  /** How many of the latest history entries go into the prompt. */
  const HISTORY_WINDOW: nat := 6

  function Role(m: Message): string {
    if m.sender == Some("user") then "User" else "Assistant"
  }

  function Line(m: Message): string {
    Role(m) + ": " + m.text.GetOr("") + "\n"
  }

  /** The context lines: one per entry of the last six, in order. */
  function ContextLines(history: seq<Message>): (r: seq<string>)
    ensures |r| == if |history| <= HISTORY_WINDOW then |history| else HISTORY_WINDOW
    ensures forall i :: 0 <= i < |r| ==> r[i] == Line(history[|history| - |r| + i])
  {
    var window := TakeLast(history, HISTORY_WINDOW);
    seq(|window|, i requires 0 <= i < |window| => Line(window[i]))
  }

  function Concat(lines: seq<string>): string {
    if lines == [] then "" else Concat(lines[..|lines| - 1]) + lines[|lines| - 1]
  }

  /** The loop of `chat` that writes the context. */
  method BuildContext(history: seq<Message>) returns (text: string)
    ensures text == Concat(ContextLines(history))
  {
    var window := TakeLast(history, HISTORY_WINDOW);
    ghost var lines := ContextLines(history);
    text := "";
    var i := 0;
    while i < |window|
      invariant 0 <= i <= |window| == |lines|
      invariant text == Concat(lines[..i])
    {
      assert lines[..i + 1][..i] == lines[..i];
      text := text + Line(window[i]);
      i := i + 1;
    }
    assert lines[..i] == lines;
  }

  // ---------------------------------------------------------------------
  // Models

  /** The prompt a model is asked: the context written from the history
      and the user's question. */
  datatype Prompt = Prompt(context: string, question: string)

  const MODELS: seq<string> := ["gemini-1.5-flash", "gemini-1.5-pro", "gemini-2.0-flash-exp"]

  /** The index of the first model that answers, or `|models|`. */
  function Answering(models: seq<string>, ask: (string, Prompt) -> Option<string>, prompt: Prompt): (i: nat)
    ensures i <= |models|
    ensures i < |models| ==> ask(models[i], prompt).Some?
    ensures forall k :: 0 <= k < i ==> ask(models[k], prompt).None?
  {
    if models == [] then 0
    else if ask(models[0], prompt).Some? then 0
    else 1 + Answering(models[1..], ask, prompt)
  }

  lemma AnsweringIs(models: seq<string>, ask: (string, Prompt) -> Option<string>, prompt: Prompt, i: nat)
    requires i <= |models|
    requires i < |models| ==> ask(models[i], prompt).Some?
    requires forall k :: 0 <= k < i ==> ask(models[k], prompt).None?
    ensures Answering(models, ask, prompt) == i
  {
  }

  /** The trimmed text of the first model that answers; `None` when all
      fail. Later models are not asked once one answers. */
  function FirstAnswer(models: seq<string>, ask: (string, Prompt) -> Option<string>, prompt: Prompt): (r: Option<string>)
    ensures r.None? <==> forall i :: 0 <= i < |models| ==> ask(models[i], prompt).None?
    ensures r.Some? ==>
              var i := Answering(models, ask, prompt);
              i < |models| && r.value == Strip(ask(models[i], prompt).value)
  {
    var i := Answering(models, ask, prompt);
    if i < |models| then Some(Strip(ask(models[i], prompt).value)) else None
  }

  /** The loop of `chat` over the models: it stops at the first model that
      answers, even when its answer is blank. */
  method TryModels(ask: (string, Prompt) -> Option<string>, prompt: Prompt) returns (text: Option<string>)
    ensures text == FirstAnswer(MODELS, ask, prompt)
  {
    var i := 0;
    while i < |MODELS|
      invariant 0 <= i <= |MODELS|
      invariant forall k :: 0 <= k < i ==> ask(MODELS[k], prompt).None?
    {
      var reply := ask(MODELS[i], prompt);
      if reply.Some? {
        AnsweringIs(MODELS, ask, prompt, i);
        return Some(Strip(reply.value));
      }
      i := i + 1;
    }
    AnsweringIs(MODELS, ask, prompt, i);
    return None;
  }

  // ---------------------------------------------------------------------
  // The route

  /** The JSON body of a chat request; a missing message is `None`. */
  datatype ChatBody = ChatBody(message: Option<string>, history: seq<Message>)

  /** The fixed timestamp sent with a model's answer. */
  const REPLY_TIMESTAMP := "2026-01-08T00:00:00Z"

  datatype ChatOutcome =
    | MessageRequired
    | Canned(topic: Topic)
    | Answered(text: string, timestamp: string)
    | ChatFailed

  /** `chat`. A request without a JSON body fails; a blank message is
      refused; without an API key, or when no model gives a non-blank
      answer, the canned reply for the trimmed message is sent. */
  method HandleChat(body: Option<ChatBody>, apiKey: bool, ask: (string, Prompt) -> Option<string>)
    returns (out: ChatOutcome)
    ensures body.None? ==> out == ChatFailed
    ensures body.Some? ==> (out == MessageRequired <==> Strip(body.value.message.GetOr("")) == "")
    ensures body.Some? && Strip(body.value.message.GetOr("")) != "" && !apiKey ==>
              out == Canned(FallbackTopic(Strip(body.value.message.GetOr(""))))
    ensures body.Some? && Strip(body.value.message.GetOr("")) != "" && apiKey ==>
              var message := Strip(body.value.message.GetOr(""));
              var answer := FirstAnswer(MODELS, ask, Prompt(Concat(ContextLines(body.value.history)), message));
              out == if answer.Some? && answer.value != "" then Answered(answer.value, REPLY_TIMESTAMP)
                     else Canned(FallbackTopic(message))
  {
    if body.None? {
      return ChatFailed;
    }
    var message := Strip(body.value.message.GetOr(""));
    if message == "" {
      return MessageRequired;
    }
    if !apiKey {
      return Canned(FallbackTopic(message));
    }
    var context := BuildContext(body.value.history);
    var answer := TryModels(ask, Prompt(context, message));
    if answer.None? || answer.value == "" {
      return Canned(FallbackTopic(message));
    }
    out := Answered(answer.value, REPLY_TIMESTAMP);
  }
}
