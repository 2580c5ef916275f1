/** The career quiz of frontend/src/components/ViMaCompass.jsx: six questions whose
    answers are kept in a map, a submit that needs all six, the path or error shown
    afterwards, and the retake. */
module ViMaCompass {
  import opened Js
  import UserModel

  /** The ids of `viMaCompassQuestions`, in slide order. */
  const QuestionIds: seq<string> := ["q1", "q2", "q3", "q4", "q5", "q6"]

  const TimeoutText := "Request timeout. The AI model may be loading. Please try again in 30 seconds."
  const GenericText := "Something went wrong. Please try again."

  /** What `aiGeneratedPath` holds: `null`, a path object from the server or the
      user document, or the `{ raw: message }` object built on an error. */
  datatype ShownPath = NoPath | ServerPath(path: UserModel.AiPath) | RawMessage(raw: string)

  /** How the POST ended: an answer whose `data.path` and `data.user?.aiGeneratedPath`
      may each be absent, or a thrown error with its `code` and
      `response?.data?.message`. */
  datatype Reply = Answered(path: Maybe<UserModel.AiPath>, userPath: Maybe<UserModel.AiPath>)
                 | Failed(code: Maybe<string>, serverMessage: Maybe<string>)

  /** The `catch` block's message. */
  function ErrorMessage(code: Maybe<string>, serverMessage: Maybe<string>): (r: string)
    ensures r != ""
    ensures code == Defined("ECONNABORTED") ==> r == TimeoutText
    ensures code != Defined("ECONNABORTED") && Truthy(serverMessage) ==> r == serverMessage.value
    ensures code != Defined("ECONNABORTED") && !Truthy(serverMessage) ==> r == GenericText
  {
    if code == Defined("ECONNABORTED") then TimeoutText
    else if Truthy(serverMessage) then serverMessage.value
    else GenericText
  }

  /** The path shown once the request has ended. A reply without either path throws
      "No path returned from server", an error with no code and no response. */
  function Outcome(reply: Reply): (r: ShownPath)
    ensures r != NoPath
    ensures reply.Answered? && reply.path.Defined? ==> r == ServerPath(reply.path.value)
    ensures reply.Answered? && reply.path.Undefined? && reply.userPath.Defined? ==> r == ServerPath(reply.userPath.value)
    ensures reply.Answered? && reply.path.Undefined? && reply.userPath.Undefined? ==> r == RawMessage(GenericText)
    ensures reply.Failed? ==> r == RawMessage(ErrorMessage(reply.code, reply.serverMessage))
  {
    match reply
    case Answered(p, u) =>
      if p.Defined? then ServerPath(p.value)
      else if u.Defined? then ServerPath(u.value)
      else RawMessage(ErrorMessage(Undefined, Undefined))
    case Failed(c, m) => RawMessage(ErrorMessage(c, m))
  }

  /** An answer with no path is shown exactly like a failure without code or
      response. */
  lemma MissingPathIsError()
    ensures Outcome(Answered(Undefined, Undefined)) == Outcome(Failed(Undefined, Undefined))
  {
  }

  /** The timeout text is shown for a timed-out request whatever the server said,
      and never for an answer that carries a path. */
  lemma TimeoutOnlyOnAbort(reply: Reply)
    ensures reply.Failed? && reply.code == Defined("ECONNABORTED") ==> Outcome(reply) == RawMessage(TimeoutText)
    ensures reply.Answered? && (reply.path.Defined? || reply.userPath.Defined?) ==> Outcome(reply).ServerPath?
  {
  }

  /** Once all six questions are answered, submitting is allowed. */
  lemma {:induction false} AllAnsweredEnough(answers: map<string, string>)
    requires forall k :: 0 <= k < |QuestionIds| ==> QuestionIds[k] in answers
    ensures |answers.Keys| >= |QuestionIds|
  {
    var ids := {"q1", "q2", "q3", "q4", "q5", "q6"};
    assert QuestionIds[0] in answers && QuestionIds[1] in answers && QuestionIds[2] in answers;
    assert QuestionIds[3] in answers && QuestionIds[4] in answers && QuestionIds[5] in answers;
    assert ids <= answers.Keys;
    assert |ids - {"q6"}| == 5 by {
      assert |ids - {"q6"} - {"q5"}| == 4 by {
        assert ids - {"q6"} - {"q5"} == {"q1", "q2", "q3", "q4"};
      }
    }
    SubsetCard(ids, answers.Keys);
  }

  lemma SubsetCard<T>(a: set<T>, b: set<T>)
    requires a <= b
    ensures |a| <= |b|
  {
    assert b == a + (b - a);
  }

  /** The quiz. `userData` is the context's value when the component mounted. */
  class Quiz {
    const userData: Maybe<UserModel.User>
    var answers: map<string, string>
    var completed: bool
    var aiGeneratedPath: ShownPath
    var loading: bool
    var showQuiz: bool
    /** The swiper's `activeIndex`; the swiper is mounted afresh whenever it is
        shown again, so it is back at the first slide then. */
    var slide: nat
    /** The `answers` bodies posted, in order. */
    var requests: seq<map<string, string>>

    ghost predicate Valid()
      reads this
    {
      slide < |QuestionIds|
    }

    /** The initial state: a user whose document holds a path sees it, with no quiz. */
    constructor (userData: Maybe<UserModel.User>)
      ensures Valid()
      ensures this.userData == userData && answers == map[] && !completed && !loading
      ensures aiGeneratedPath == (if userData.Defined? then ServerPath(userData.value.aiGeneratedPath) else NoPath)
      ensures showQuiz == userData.Undefined?
      ensures slide == 0 && requests == []
    {
      this.userData := userData;
      answers := map[];
      completed := false;
      aiGeneratedPath := if userData.Defined? then ServerPath(userData.value.aiGeneratedPath) else NoPath;
      loading := false;
      showQuiz := userData.Undefined?;
      slide := 0;
      requests := [];
    }

    /** `handleAnswer`: one key is set, the others stay. */
    method HandleAnswer(id: string, value: string)
      modifies this
      ensures answers == old(answers)[id := value]
      ensures id in answers && answers[id] == value
      ensures forall k :: k in old(answers) && k != id ==> k in answers && answers[k] == old(answers)[k]
      ensures completed == old(completed) && aiGeneratedPath == old(aiGeneratedPath)
      ensures loading == old(loading) && showQuiz == old(showQuiz)
      ensures slide == old(slide) && requests == old(requests)
    {
      answers := answers[id := value];
    }

    /** `QuestionSlide.handleSelect` on the current slide: records the answer for
        that slide's question and moves on unless this is the last question. */
    method HandleSelect(option: string)
      requires Valid()
      modifies this
      ensures Valid()
      ensures answers == old(answers)[QuestionIds[old(slide)] := option]
      ensures slide == (if old(slide) < |QuestionIds| - 1 then old(slide) + 1 else old(slide))
      ensures completed == old(completed) && aiGeneratedPath == old(aiGeneratedPath)
      ensures loading == old(loading) && showQuiz == old(showQuiz) && requests == old(requests)
    {
      HandleAnswer(QuestionIds[slide], option);
      if slide < |QuestionIds| - 1 {
        slide := slide + 1;
      }
    }

    /** `handleSubmit` up to the request. Fewer than six answered ids: nothing
        changes. Otherwise `loading` is set; without `userData` reading
        `userData._id` throws before the request, which ends the submit at once
        with the generic message. `sent` tells whether a request went out. */
    method SubmitStart() returns (sent: bool)
      requires Valid()
      modifies this
      ensures Valid()
      ensures |old(answers).Keys| < |QuestionIds| ==>
                !sent && answers == old(answers) && completed == old(completed)
                && aiGeneratedPath == old(aiGeneratedPath) && loading == old(loading)
                && showQuiz == old(showQuiz) && slide == old(slide) && requests == old(requests)
      ensures |old(answers).Keys| >= |QuestionIds| && userData.Defined? ==>
                sent && loading && !completed && requests == old(requests) + [old(answers)]
                && answers == old(answers) && aiGeneratedPath == old(aiGeneratedPath) && showQuiz == old(showQuiz)
      ensures |old(answers).Keys| >= |QuestionIds| && userData.Undefined? ==>
                !sent && !loading && completed && !showQuiz && aiGeneratedPath == RawMessage(GenericText)
                && requests == old(requests) && answers == old(answers)
    {
      if |answers.Keys| < |QuestionIds| {
        return false;
      }
      loading := true;
      completed := false;
      slide := 0;
      if userData.Undefined? {
        aiGeneratedPath := RawMessage(ErrorMessage(Undefined, Undefined));
        showQuiz := false;
        completed := true;
        loading := false;
        return false;
      }
      requests := requests + [answers];
      sent := true;
    }

    /** `handleSubmit` after the request: the path or error is shown, the quiz is
        hidden, and the `finally` marks the quiz completed and not loading. */
    method SubmitSettled(reply: Reply)
      requires Valid()
      modifies this
      ensures Valid()
      ensures aiGeneratedPath == Outcome(reply)
      ensures completed && !loading && !showQuiz
      ensures answers == old(answers) && slide == old(slide) && requests == old(requests)
    {
      aiGeneratedPath := Outcome(reply);
      showQuiz := false;
      completed := true;
      loading := false;
    }

    /** `handleRetake`. */
    method HandleRetake()
      modifies this
      ensures Valid()
      ensures answers == map[] && !completed && aiGeneratedPath == NoPath && showQuiz
      ensures slide == 0 && loading == old(loading) && requests == old(requests)
    {
      answers := map[];
      completed := false;
      aiGeneratedPath := NoPath;
      showQuiz := true;
      slide := 0;
    }

    /** The result card is rendered: not loading, quiz hidden, and a path to show. */
    predicate ShowsResult()
      reads this
    {
      !loading && !showQuiz && aiGeneratedPath != NoPath
    }
  }

  /** After a settled submit the result card is shown, whatever the reply. */
  method SubmitShowsResult(q: Quiz, reply: Reply)
    requires q.Valid()
    modifies q
    ensures q.ShowsResult() && q.completed
  {
    q.SubmitSettled(reply);
  }
}
