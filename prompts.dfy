/** `generate_captions`: the two-message request sent to the chat-completion
    service for one topic, and how its answer, or the exception it raises,
    becomes the caption text shown and exported for that topic. The service
    itself is a function parameter. */
module Prompts {
  import opened Text
  import opened Config

  /** The model every request names. */
  const ModelName := "gpt-4"

  datatype Role = System | User

  datatype Message = Message(role: Role, content: string)

  /** What `openai.ChatCompletion.create` is called with. */
  datatype Request = Request(model: string, messages: seq<Message>, temperature: Temperature)

  /** How a call to the service ends: the content of the first choice, or
      an exception with its message. */
  datatype Completion = Reply(content: string) | Raised(message: string)

  const SystemIntro := "You are a creative social media caption generator for "
  const UserIntro := "Generate "
  const UserMiddle := " captions with hashtags for this topic: "
  const ErrorPrefix := "Error: "

  /** `s` holds `w` starting at position `i`. */
  predicate OccursAt(s: string, w: string, i: nat) {
    i + |w| <= |s| && s[i..i + |w|] == w
  }

  lemma OccursInTemplate(a: string, w: string, b: string, v: string, c: string)
    ensures OccursAt(a + w + b + v + c, w, |a|)
    ensures OccursAt(a + w + b + v + c, v, |a| + |w| + |b|)
  {
    var s := a + w + b + v + c;
    assert s == a + w + (b + v + c);
    assert s[|a|..|a| + |w|] == w;
    assert s == (a + w + b) + v + c;
    assert s[|a| + |w| + |b|..|a| + |w| + |b| + |v|] == v;
  }

  /** The system message: the fixed introduction, the platform label,
      " in ", the tone label and " tone.", and nothing else. */
  function SystemPrompt(platform: Platform, tone: Tone): (prompt: string)
    ensures |prompt| == |SystemIntro| + |PlatformName(platform)| + 4 + |ToneName(tone)| + 6
    ensures OccursAt(prompt, SystemIntro, 0)
    ensures OccursAt(prompt, PlatformName(platform), |SystemIntro|)
    ensures OccursAt(prompt, " in ", |SystemIntro| + |PlatformName(platform)|)
    ensures OccursAt(prompt, ToneName(tone), |SystemIntro| + |PlatformName(platform)| + 4)
    ensures OccursAt(prompt, " tone.", |prompt| - 6)
  {
    OccursInTemplate(SystemIntro, PlatformName(platform), " in ", ToneName(tone), " tone.");
    SystemIntro + PlatformName(platform) + " in " + ToneName(tone) + " tone."
  }

  /** The user message: "Generate ", the caption count in decimal, the
      fixed request text and the topic, and nothing else. */
  function UserPrompt(numCaptions: CaptionCount, topic: string): (prompt: string)
    ensures OccursAt(prompt, UserIntro, 0)
    ensures OccursAt(prompt, DecimalString(numCaptions), |UserIntro|)
    ensures OccursAt(prompt, UserMiddle, |UserIntro| + |DecimalString(numCaptions)|)
    ensures |prompt| == |UserIntro| + |DecimalString(numCaptions)| + |UserMiddle| + |topic|
    ensures OccursAt(prompt, topic, |UserIntro| + |DecimalString(numCaptions)| + |UserMiddle|)
  {
    var prompt := UserIntro + DecimalString(numCaptions) + UserMiddle + topic;
    OccursInTemplate(UserIntro, DecimalString(numCaptions), UserMiddle, topic, "");
    assert UserIntro + DecimalString(numCaptions) + UserMiddle + topic + "" == prompt;
    prompt
  }

  /** The request sent for one topic under the current settings: model
      "gpt-4", a system message naming platform and tone, then a user
      message with the caption count and the topic, and the chosen
      temperature. */
  function BuildRequest(cfg: Settings, topic: string): (req: Request)
    ensures req.model == ModelName && req.temperature == cfg.temperature
    ensures |req.messages| == 2
    ensures req.messages[0].role == System
    ensures req.messages[0].content == SystemPrompt(cfg.platform, cfg.tone)
    ensures OccursAt(req.messages[0].content, PlatformName(cfg.platform), |SystemIntro|)
    ensures OccursAt(req.messages[0].content, ToneName(cfg.tone),
                     |SystemIntro| + |PlatformName(cfg.platform)| + 4)
    ensures req.messages[1].role == User
    ensures req.messages[1].content == UserPrompt(cfg.numCaptions, topic)
    ensures OccursAt(req.messages[1].content, DecimalString(cfg.numCaptions), |UserIntro|)
    ensures OccursAt(req.messages[1].content, topic,
                     |UserIntro| + |DecimalString(cfg.numCaptions)| + |UserMiddle|)
  {
    Request(
      ModelName,
      [Message(System, SystemPrompt(cfg.platform, cfg.tone)),
       Message(User, UserPrompt(cfg.numCaptions, topic))],
      cfg.temperature)
  }

  /** Two instances of the template `a + w + b + v + c` agree only when
      their `w` and their `v` do, given that the `w` holds no space and `b`
      starts with one. */
  lemma TemplateInjective(a: string, w1: string, v1: string, w2: string, v2: string, b: string, c: string)
    requires ' ' !in w1 && ' ' !in w2
    requires b != [] && b[0] == ' '
    requires a + w1 + b + v1 + c == a + w2 + b + v2 + c
    ensures w1 == w2 && v1 == v2
  {
    var s1, s2 := a + w1 + b + v1 + c, a + w2 + b + v2 + c;
    assert s1 == a + (w1 + (b + v1 + c)) && s2 == a + (w2 + (b + v2 + c));
    assert w1 + (b + v1 + c) == s1[|a|..];
    FirstOccurrence(w1, b + v1 + c, w2, b + v2 + c, ' ');
    assert v1 + c == (b + v1 + c)[|b|..];
    assert v2 + c == (b + v2 + c)[|b|..];
    assert v1 == (v1 + c)[..|v1|];
    assert v2 == (v2 + c)[..|v2|];
  }

  /** The system message tells the settings apart: different platforms or
      tones give different messages. */
  lemma SystemPromptInjective(p1: Platform, t1: Tone, p2: Platform, t2: Tone)
    requires SystemPrompt(p1, t1) == SystemPrompt(p2, t2)
    ensures p1 == p2 && t1 == t2
  {
    TemplateInjective(SystemIntro, PlatformName(p1), ToneName(t1), PlatformName(p2), ToneName(t2), " in ", " tone.");
    PlatformNameInjective(p1, p2);
    ToneNameInjective(t1, t2);
  }

  /** The user message tells the caption count and the topic apart. */
  lemma UserPromptInjective(n1: CaptionCount, topic1: string, n2: CaptionCount, topic2: string)
    requires UserPrompt(n1, topic1) == UserPrompt(n2, topic2)
    ensures n1 == n2 && topic1 == topic2
  {
    var d1, d2 := DecimalString(n1), DecimalString(n2);
    assert ' ' !in d1 && ' ' !in d2;
    assert UserIntro + d1 + UserMiddle + topic1 + "" == UserIntro + d2 + UserMiddle + topic2 + "" by {
      assert UserIntro + d1 + UserMiddle + topic1 + "" == UserPrompt(n1, topic1);
      assert UserIntro + d2 + UserMiddle + topic2 + "" == UserPrompt(n2, topic2);
    }
    TemplateInjective(UserIntro, d1, topic1, d2, topic2, UserMiddle, "");
    DecimalStringInjective(n1, n2);
  }

  /** The request carries everything it is built from except the export
      format: two requests are equal only when platform, tone, caption
      count, temperature and topic all agree. */
  lemma BuildRequestInjective(cfg1: Settings, topic1: string, cfg2: Settings, topic2: string)
    requires BuildRequest(cfg1, topic1) == BuildRequest(cfg2, topic2)
    ensures cfg1.platform == cfg2.platform && cfg1.tone == cfg2.tone
    ensures cfg1.numCaptions == cfg2.numCaptions && cfg1.temperature == cfg2.temperature
    ensures topic1 == topic2
  {
    var r1, r2 := BuildRequest(cfg1, topic1), BuildRequest(cfg2, topic2);
    assert r1.messages[0].content == r2.messages[0].content;
    assert r1.messages[1].content == r2.messages[1].content;
    SystemPromptInjective(cfg1.platform, cfg1.tone, cfg2.platform, cfg2.tone);
    UserPromptInjective(cfg1.numCaptions, topic1, cfg2.numCaptions, topic2);
  }

  /** `generate_captions(topic)` as the `call`-th call of a run: the
      reply's text as it came, or, when the call raises, the exception's
      message behind "Error: ". The service answers each call on its own,
      so `remote` sees the call's position as well as its request. */
  function GenerateCaptions(cfg: Settings, remote: (nat, Request) -> Completion, call: nat, topic: string): (captions: string)
    ensures remote(call, BuildRequest(cfg, topic)).Reply? ==>
      captions == remote(call, BuildRequest(cfg, topic)).content
    ensures remote(call, BuildRequest(cfg, topic)).Raised? ==>
      |captions| >= |ErrorPrefix| && captions[..|ErrorPrefix|] == ErrorPrefix &&
      captions[|ErrorPrefix|..] == remote(call, BuildRequest(cfg, topic)).message
  {
    match remote(call, BuildRequest(cfg, topic))
    case Reply(content) => content
    case Raised(message) => ErrorPrefix + message
  }

  /** A failed call leaves no trace but its text: a service that raises
      with message `e` and one that replies "Error: " followed by `e` give
      the same caption text. */
  lemma FailureLooksLikeReply(cfg: Settings, call: nat, topic: string, e: string)
    ensures GenerateCaptions(cfg, (_, _) => Raised(e), call, topic)
         == GenerateCaptions(cfg, (_, _) => Reply(ErrorPrefix + e), call, topic)
  {
  }

  /** Asking twice with the same request need not give the same captions:
      the second call of a run may fail where the first succeeded. */
  lemma RepeatedRequestMayDiffer(cfg: Settings, topic: string)
    ensures var remote := (call: nat, _: Request) => if call == 0 then Reply("") else Raised("");
      GenerateCaptions(cfg, remote, 0, topic) != GenerateCaptions(cfg, remote, 1, topic)
  {
    var remote := (call: nat, _: Request) => if call == 0 then Reply("") else Raised("");
    assert |GenerateCaptions(cfg, remote, 1, topic)| >= |ErrorPrefix|;
  }
}
