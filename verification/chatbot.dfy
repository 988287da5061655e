/** The chatbot's deterministic helpers: formatting the recent dialogue for the prompt,
    choosing between the recommendation and the general prompt template, spotting a skin
    type in the user's message, and choosing the answer text around the language-model
    call. The database and the model are outcomes supplied by the environment. */
module Chatbot {
  import opened Wrappers
  import opened Exceptions
  import opened Text

  // ---------------------------------------------------------------------------------------
  // Dialogue history

  /** A stored chat message: who spoke and what was said. */
  datatype Record = Record(role: string, text: string)

  const UserSpeaker: string := "사용자"
  const BotSpeaker: string := "챗봇"

  /** The speaker shown in the prompt: the two user roles become the user, anything else the bot. */
  function Speaker(role: string): (speaker: string)
    ensures speaker == (if role in ["나", "user"] then "사용자" else "챗봇")
    ensures speaker == "사용자" <==> role == "나" || role == "user"
  {
    if role == "나" || role == "user" then UserSpeaker else BotSpeaker
  }

  function Line(r: Record): string {
    Speaker(r.role) + ": " + r.text + "\n"
  }

  /** The history text for records fetched newest first: the oldest record's line comes first. */
  function FormatHistory(records: seq<Record>): string
    decreases |records|
  {
    if records == [] then "" else FormatHistory(records[1..]) + Line(records[0])
  }

  /** The formatting loop as written: walk the fetched records from the last to the first,
      appending one line each. */
  method FormatHistoryLoop(records: seq<Record>) returns (formatted: string)
    ensures formatted == FormatHistory(records)
  {
    formatted := "";
    var k := |records|;
    while k > 0
      invariant 0 <= k <= |records|
      invariant formatted == FormatHistory(records[k..])
    {
      k := k - 1;
      assert records[k..][1..] == records[k + 1..];
      formatted := formatted + Line(records[k]);
    }
    assert records[0..] == records;
  }

  /** `get_recent_dialogue_history`: the formatted records, or "" when the fetch failed. */
  function RecentHistory(fetched: Result<seq<Record>, Exc>): string {
    match fetched
    case Success(records) => FormatHistory(records)
    case Failure(_) => ""
  }

  function Reverse<T>(s: seq<T>): seq<T>
    decreases |s|
  {
    if s == [] then [] else Reverse(s[1..]) + [s[0]]
  }

  /** Lines of the records in the order given. */
  function Lines(records: seq<Record>): string
    decreases |records|
  {
    if records == [] then "" else Line(records[0]) + Lines(records[1..])
  }

  lemma {:induction false} LinesAppend(records: seq<Record>, r: Record)
    ensures Lines(records + [r]) == Lines(records) + Line(r)
    decreases |records|
  {
    if records == [] {
      assert records + [r] == [r];
    } else {
      assert (records + [r])[1..] == records[1..] + [r];
      LinesAppend(records[1..], r);
    }
  }

  /** The history lists the fetched records in reverse, i.e. chronologically when they were
      fetched newest first. */
  lemma {:induction false} HistoryIsChronological(records: seq<Record>)
    ensures FormatHistory(records) == Lines(Reverse(records))
    decreases |records|
  {
    if records != [] {
      HistoryIsChronological(records[1..]);
      LinesAppend(Reverse(records[1..]), records[0]);
    }
  }

  /** The history is empty exactly when the fetch failed or found no records. */
  lemma HistoryEmptyIff(fetched: Result<seq<Record>, Exc>)
    ensures RecentHistory(fetched) == "" <==> fetched.Failure? || fetched.value == []
  {
    if fetched.Success? && fetched.value != [] {
      var records := fetched.value;
      assert |Line(records[0])| > 0;
      assert |FormatHistory(records)| >= |Line(records[0])|;
    }
  }

  // ---------------------------------------------------------------------------------------
  // Prompt construction

  datatype Template = Recommendation | General

  const NoneText: string := "없음"
  const UnknownText: string := "알 수 없음"

  /** The template choice: a recommendation needs a skin type that is present, non-empty
      and whose lower-case form is neither "알 수 없음" nor "없음". */
  function ChooseTemplate(skinType: Option<string>): Template {
    if skinType.Some? && skinType.value != "" && Lower(skinType.value) != UnknownText && Lower(skinType.value) != NoneText
    then Recommendation
    else General
  }

  /** Because both sentinel texts are caseless, the choice is exactly: present and not one
      of "", "알 수 없음", "없음". */
  lemma TemplateChoice(skinType: Option<string>)
    ensures ChooseTemplate(skinType) == Recommendation <==>
      skinType.Some? && skinType.value != "" && skinType.value != UnknownText && skinType.value != NoneText
  {
    if skinType.Some? {
      LowerEqualsCaseless(skinType.value, UnknownText);
      LowerEqualsCaseless(skinType.value, NoneText);
    }
  }

  /** The history block of both templates: "없음" stands in for an empty history. */
  function HistoryBlock(history: string): string {
    if history == "" then NoneText else history
  }

  /** The fixed instruction text opening the recommendation prompt, around its three uses
      of the skin type. */
  function RecommendationInstructions(skinType: string): string {
    "\n1. 당신은 사용자의 피부 타입 \"" + skinType + "\"에 따라 기초 화장품을 추천하고 설명해주는 올리브영 직원입니다.\n"
    + "2. 형식은 \"당신의 피부 타입은 🌼" + skinType + "🌼 입니다. " + skinType + " 피부 타입은 ...\" 로 시작해주세요.\n"
    + RecommendationRules
  }

  /** The remaining numbered rules of the recommendation prompt. */
  const RecommendationRules: string := "3. ...\n4. ...\n6. ...\n7. ...\n"

  /** The fixed instruction text opening the general prompt. */
  const GeneralInstructions: string := "\n        당신은 \"SkinThera\"라는 뷰티 및 피부 건강 관련 서비스를 제공하는 AI 챗봇입니다.\n        ...\n"

  /** The closing lines of the recommendation prompt, after the user's request. */
  function SkinTypeNote(skinType: string): string {
    " (이 사용자는 \"" + skinType + "\" 피부입니다.)\n\n챗봇 답변:\n        "
  }

  /** The recommendation template with its history block `h` filled in. */
  function RecommendationPrompt(userInput: string, skinType: string, h: string): string {
    RecommendationInstructions(skinType) + "\n이전 대화:\n" + h
    + "\n\n현재 사용자 요청: " + userInput + SkinTypeNote(skinType)
  }

  /** The general template with its history block `h` filled in. */
  function GeneralPrompt(userInput: string, h: string): string {
    GeneralInstructions + "\n        이전 대화:\n        " + h
    + "\n\n        현재 사용자 질문: " + userInput + "\n\n        챗봇 답변:\n        "
  }

  /** `create_gemini_prompt`. */
  function CreatePrompt(userInput: string, skinType: Option<string>, history: string): string {
    match ChooseTemplate(skinType)
    case Recommendation => RecommendationPrompt(userInput, skinType.value, HistoryBlock(history))
    case General => GeneralPrompt(userInput, HistoryBlock(history))
  }

  lemma RecommendationPromptEmbeds(userInput: string, skinType: string, h: string)
    ensures var p := RecommendationPrompt(userInput, skinType, h);
      Contains(p, userInput) && Contains(p, h) && Contains(p, skinType)
  {
    var head := RecommendationInstructions(skinType) + "\n이전 대화:\n";
    var request := "\n\n현재 사용자 요청: ";
    var note := SkinTypeNote(skinType);
    assert RecommendationPrompt(userInput, skinType, h) == head + h + (request + userInput + note);
    ContainsSurrounded(head, h, request + userInput + note);
    assert RecommendationPrompt(userInput, skinType, h) == (head + h + request) + userInput + note;
    ContainsSurrounded(head + h + request, userInput, note);
    var before := head + h + request + userInput + " (이 사용자는 \"";
    var after := "\" 피부입니다.)\n\n챗봇 답변:\n        ";
    assert RecommendationPrompt(userInput, skinType, h) == before + skinType + after;
    ContainsSurrounded(before, skinType, after);
  }

  lemma GeneralPromptEmbeds(userInput: string, h: string)
    ensures Contains(GeneralPrompt(userInput, h), userInput) && Contains(GeneralPrompt(userInput, h), h)
  {
    var head := GeneralInstructions + "\n        이전 대화:\n        ";
    var question := "\n\n        현재 사용자 질문: ";
    var tail := "\n\n        챗봇 답변:\n        ";
    assert GeneralPrompt(userInput, h) == head + h + (question + userInput + tail);
    ContainsSurrounded(head, h, question + userInput + tail);
    assert GeneralPrompt(userInput, h) == (head + h + question) + userInput + tail;
    ContainsSurrounded(head + h + question, userInput, tail);
  }

  /** Whichever template is chosen, the prompt embeds the user's input and the history (or
      "없음" when there is none); the recommendation prompt also names the skin type. */
  lemma PromptEmbedsInputs(userInput: string, skinType: Option<string>, history: string)
    ensures Contains(CreatePrompt(userInput, skinType, history), userInput)
    ensures Contains(CreatePrompt(userInput, skinType, history), HistoryBlock(history))
    ensures ChooseTemplate(skinType) == Recommendation ==>
      Contains(CreatePrompt(userInput, skinType, history), skinType.value)
  {
    if ChooseTemplate(skinType) == Recommendation {
      RecommendationPromptEmbeds(userInput, skinType.value, HistoryBlock(history));
    } else {
      GeneralPromptEmbeds(userInput, HistoryBlock(history));
    }
  }

  // ---------------------------------------------------------------------------------------
  // Skin-type keywords

  /** The keywords, in the order they are tried. */
  const SkinKeywords: seq<string> := ["건성", "지성", "복합성"]

  /** Keyword detection in the dialogue handler: the first keyword, in order, that occurs
      in the input; none when no keyword occurs. */
  function DetectSkinType(userInput: string): (detected: Option<string>)
    ensures detected.Some? ==>
      exists i :: 0 <= i < |SkinKeywords| && detected.value == SkinKeywords[i]
        && Contains(userInput, SkinKeywords[i])
        && forall j :: 0 <= j < i ==> !Contains(userInput, SkinKeywords[j])
    ensures detected.None? <==> forall i :: 0 <= i < |SkinKeywords| ==> !Contains(userInput, SkinKeywords[i])
  {
    assert SkinKeywords[0] == "건성" && SkinKeywords[1] == "지성" && SkinKeywords[2] == "복합성";
    if Contains(userInput, "건성") then Some("건성")
    else if Contains(userInput, "지성") then Some("지성")
    else if Contains(userInput, "복합성") then Some("복합성")
    else None
  }

  /** First match wins: a message about "복합건성" or "복합지성" skin is read as dry or oily. */
  lemma CombinationSubtypesMatchEarlier(userInput: string)
    ensures Contains(userInput, "복합건성") ==> DetectSkinType(userInput) == Some("건성")
    ensures Contains(userInput, "복합지성") && !Contains(userInput, "건성") ==> DetectSkinType(userInput) == Some("지성")
  {
    if Contains(userInput, "복합건성") {
      assert "복합건성" == "복합" + "건성" + "";
      ContainsSurrounded("복합", "건성", "");
      ContainsTransitive(userInput, "복합건성", "건성");
    }
    if Contains(userInput, "복합지성") {
      assert "복합지성" == "복합" + "지성" + "";
      ContainsSurrounded("복합", "지성", "");
      ContainsTransitive(userInput, "복합지성", "지성");
    }
  }

  /** A detected keyword always selects the recommendation template; no keyword selects
      the general one. */
  lemma DetectedKeywordSelectsRecommendation(userInput: string)
    ensures ChooseTemplate(DetectSkinType(userInput)) == Recommendation <==> DetectSkinType(userInput).Some?
  {
    TemplateChoice(DetectSkinType(userInput));
  }

  // ---------------------------------------------------------------------------------------
  // Answer selection

  /** One response candidate, by its content parts. */
  datatype Candidate = Candidate(parts: seq<string>)

  /** What the model call produced: a response (its candidates, and reading its text either
      gives the text or raises with a message), or an exception's message. */
  datatype Generation = Generated(candidates: seq<Candidate>, text: Result<string, string>) | GenerationRaised(message: string)

  const DialogueFallback: string := "죄송합니다. 현재 답변을 드리기 어렵습니다. 잠시 후 다시 시도해주세요."
  const AdviceFallback: string := "죄송합니다. 현재 맞춤형 피부 조언을 드리기 어렵습니다."
  const BusyText: string := "현재 많은 사용자가 서비스를 이용 중입니다. 잠시 후 다시 시도해주시면 감사하겠습니다."

  /** The exception handler: a quota message, in any case, gives the busy text; any other
      exception keeps the fallback. */
  function OnException(fallback: string, message: string): string {
    if Contains(Lower(message), "quota") then BusyText else fallback
  }

  /** The response is usable when it has a candidate whose first entry has parts. */
  predicate Usable(g: Generation) {
    g.Generated? && |g.candidates| > 0 && |g.candidates[0].parts| > 0
  }

  /** The answer text around the model call, starting from `fallback`. */
  function SelectAnswer(fallback: string, g: Generation): (answer: string)
    ensures answer == fallback || answer == BusyText || (g.Generated? && g.text == Success(answer))
    ensures g.GenerationRaised? ==> answer == fallback || answer == BusyText
  {
    match g
    case GenerationRaised(message) => OnException(fallback, message)
    case Generated(_, text) =>
      if !Usable(g) then fallback
      else
        match text
        case Success(t) => t
        case Failure(message) => OnException(fallback, message)
  }

  /** The answer is the model's text when the response is usable and its text readable;
      otherwise it is the busy text if the failure's message mentions a quota, in any
      letter case, and the fallback if not. */
  lemma AnswerSelection(fallback: string, g: Generation)
    ensures Usable(g) && g.text.Success? ==> SelectAnswer(fallback, g) == g.text.value
    ensures g.Generated? && !Usable(g) ==> SelectAnswer(fallback, g) == fallback
    ensures var failure := if g.GenerationRaised? then Some(g.message)
                           else if Usable(g) && g.text.Failure? then Some(g.text.error) else None;
      failure.Some? ==>
        (Contains(failure.value, "quota") || Contains(failure.value, "Quota") || Contains(failure.value, "QUOTA") ==>
           SelectAnswer(fallback, g) == BusyText)
        && (SelectAnswer(fallback, g) == (if Contains(Lower(failure.value), "quota") then BusyText else fallback))
  {
    var failure := if g.GenerationRaised? then Some(g.message)
                   else if Usable(g) && g.text.Failure? then Some(g.text.error) else None;
    if failure.Some? {
      var m := failure.value;
      assert Lower("quota") == "quota" && Lower("Quota") == "quota" && Lower("QUOTA") == "quota";
      if Contains(m, "quota") { LowerKeepsOccurrence(m, "quota"); }
      if Contains(m, "Quota") { LowerKeepsOccurrence(m, "Quota"); }
      if Contains(m, "QUOTA") { LowerKeepsOccurrence(m, "QUOTA"); }
    }
  }

  // ---------------------------------------------------------------------------------------
  // The dialogue handler

  datatype ChatRequest = ChatRequest(userId: string, role: string, text: Option<string>)

  /** What the handler consults: whether the model is configured, the outcomes of the two
      inserts (the exception raised, if any), the history fetch, and the model itself. */
  datatype ChatEnv = ChatEnv(
    modelLoaded: bool,
    storeUser: Option<Exc>,
    history: Result<seq<Record>, Exc>,
    generate: string -> Generation,
    storeReply: Option<Exc>)

  datatype ChatEffect =
    | StoreMessage(userId: string, role: string, text: Option<string>)
    | FetchHistory(userId: string)
    | CallModel(prompt: string)

  datatype ChatResponse = Reply(userId: string, role: string, text: string) | ChatHttpError(status: int, detail: string)

  datatype ChatRun = ChatRun(effects: seq<ChatEffect>, response: ChatResponse)

  /** The role of every reply the handler stores and returns. */
  const ReplyRole: string := "챗봇"

  const StoreFailureDetail: string := "사용자 메시지를 데이터베이스에 저장하는데 실패했습니다."

  /** `chatbot_text or ""`. */
  function InputText(text: Option<string>): string {
    match text
    case Some(t) => t
    case None => ""
  }

  /** The prompt the dialogue handler sends for a request. */
  function DialoguePrompt(env: ChatEnv, req: ChatRequest): string {
    var input := InputText(req.text);
    CreatePrompt(input, DetectSkinType(input), RecentHistory(env.history))
  }

  /** `dialogue_handler`: store the user's message, produce an answer, store it (a failure
      there is only logged), and reply in the bot's role. */
  function Dialogue(env: ChatEnv, req: ChatRequest): ChatRun {
    var stored := [StoreMessage(req.userId, req.role, req.text)];
    if env.storeUser.Some? then ChatRun(stored, ChatHttpError(500, StoreFailureDetail))
    else if !env.modelLoaded then
      ChatRun(stored + [StoreMessage(req.userId, ReplyRole, Some(DialogueFallback))],
              Reply(req.userId, ReplyRole, DialogueFallback))
    else
      var prompt := DialoguePrompt(env, req);
      var answer := SelectAnswer(DialogueFallback, env.generate(prompt));
      ChatRun(stored + [FetchHistory(req.userId), CallModel(prompt), StoreMessage(req.userId, ReplyRole, Some(answer))],
              Reply(req.userId, ReplyRole, answer))
  }

  /** A failed insert of the user's message ends in a 500 and the model is never called. */
  lemma StoreFailureStopsDialogue(env: ChatEnv, req: ChatRequest)
    requires env.storeUser.Some?
    ensures Dialogue(env, req).response == ChatHttpError(500, StoreFailureDetail)
    ensures forall k :: 0 <= k < |Dialogue(env, req).effects| ==> !Dialogue(env, req).effects[k].CallModel?
  {
  }

  /** Every reply is in the bot's role and is the text stored as the bot's message, and the
      outcome of that insert does not change the reply. */
  lemma ReplyIsBotMessage(env: ChatEnv, req: ChatRequest, storeReply: Option<Exc>)
    requires env.storeUser.None?
    ensures var run := Dialogue(env, req);
      && run.response.Reply?
      && run.response.role == "챗봇"
      && run.response.userId == req.userId
      && |run.effects| > 0
      && run.effects[|run.effects| - 1] == StoreMessage(req.userId, "챗봇", Some(run.response.text))
      && Dialogue(env.(storeReply := storeReply), req) == run
  {
  }

  /** With a model, the handler calls it once, with the prompt built from the input, the
      detected skin type and the recent history; the prompt is a recommendation exactly
      when a keyword was detected; and the answer comes from that call. Without one, the
      fallback answer is given and nothing is called. */
  lemma DialogueUsesModel(env: ChatEnv, req: ChatRequest)
    requires env.storeUser.None?
    ensures var run := Dialogue(env, req);
      var input := InputText(req.text);
      && (env.modelLoaded ==>
            && CallModel(DialoguePrompt(env, req)) in run.effects
            && multiset(run.effects)[CallModel(DialoguePrompt(env, req))] == 1
            && Contains(DialoguePrompt(env, req), input)
            && (ChooseTemplate(DetectSkinType(input)) == Recommendation <==> DetectSkinType(input).Some?)
            && run.response.text == SelectAnswer(DialogueFallback, env.generate(DialoguePrompt(env, req))))
      && (!env.modelLoaded ==>
            run.response.text == DialogueFallback && forall k :: 0 <= k < |run.effects| ==> !run.effects[k].CallModel?)
  {
    var input := InputText(req.text);
    PromptEmbedsInputs(input, DetectSkinType(input), RecentHistory(env.history));
    DetectedKeywordSelectsRecommendation(input);
  }

  // ---------------------------------------------------------------------------------------
  // The skin-advice handler

  datatype AdviceRequest = AdviceRequest(userId: string, predictedSkinType: string, personalColorTone: string)

  datatype AdviceResponse = Advice(userId: string, advice: string) | AdviceHttpError(status: int, detail: string)

  const ModelUnavailableDetail: string := "AI 모델을 현재 사용할 수 없습니다. 관리자에게 문의하세요."

  /** The request text the advice handler composes from the analysis result. */
  function AdviceInput(req: AdviceRequest): string {
    req.predictedSkinType + " 피부와 " + req.personalColorTone + " 퍼스널 컬러에 맞는 화장품 추천"
  }

  function AdvicePrompt(req: AdviceRequest): string {
    CreatePrompt(AdviceInput(req), Some(req.predictedSkinType), "")
  }

  /** `skin_advice_handler`. */
  function SkinAdvice(modelLoaded: bool, generate: string -> Generation, req: AdviceRequest): AdviceResponse {
    if !modelLoaded then AdviceHttpError(503, ModelUnavailableDetail)
    else Advice(req.userId, SelectAnswer(AdviceFallback, generate(AdvicePrompt(req))))
  }

  /** Without a model the advice fails with 503; with one, the prompt is a recommendation
      exactly when the predicted type is a real one, it names the type, its history block
      is "없음", and the advice is the model's text, the busy text or the fallback, chosen by
      the same selection as the dialogue's answer (see `AnswerSelection`). */
  lemma AdviceOutcome(modelLoaded: bool, generate: string -> Generation, req: AdviceRequest)
    ensures !modelLoaded ==> SkinAdvice(modelLoaded, generate, req) == AdviceHttpError(503, ModelUnavailableDetail)
    ensures modelLoaded ==>
      var g := generate(AdvicePrompt(req));
      var advice := SkinAdvice(modelLoaded, generate, req).advice;
      && (ChooseTemplate(Some(req.predictedSkinType)) == Recommendation <==>
            req.predictedSkinType !in {"", UnknownText, NoneText})
      && Contains(AdvicePrompt(req), AdviceInput(req))
      && Contains(AdvicePrompt(req), NoneText)
      && (advice == AdviceFallback || advice == BusyText || (g.Generated? && g.text == Success(advice)))
      && SkinAdvice(modelLoaded, generate, req) == Advice(req.userId, SelectAnswer(AdviceFallback, g))
  {
    TemplateChoice(Some(req.predictedSkinType));
    PromptEmbedsInputs(AdviceInput(req), Some(req.predictedSkinType), "");
  }
}
