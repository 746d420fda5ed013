/** Checking a player's answers against the test's own form. */
module FormAnswers {
  import opened Common
  import opened JsText

  const OPEN_TEXT_ANSWER_MAX_LENGTH := 5000
  const RATING_MIN := 0
  const RATING_MAX := 10

  datatype Value = Txt(text: Text) | Num(number: real) | Flag(flag: bool) | Choices(ids: seq<Text>)
  datatype Answer = Answer(questionId: Text, value: Value)
  datatype Kind = OpenText | YesNo | Scale | Nps | SingleChoice | MultipleChoice
  datatype Question = Question(id: Text, kind: Kind, required: bool, options: seq<Text>,
                               scaleMin: Option<int>, scaleMax: Option<int>)
  datatype Problem = NotInForm | Repeated | BadValue | Missing

  /** Questions are rows: their ids are distinct UUIDs. */
  ghost predicate FormRows(qs: seq<Question>) {
    && (forall i :: 0 <= i < |qs| ==> |qs[i].id| == 36)
    && (forall i, j :: 0 <= i < j < |qs| ==> qs[i].id != qs[j].id)
  }

  function ById(qs: seq<Question>, id: Text): (r: Option<Question>)
    ensures r.Some? ==> r.value in qs && r.value.id == id
    ensures r.None? ==> forall q :: q in qs ==> q.id != id
  {
    if qs == [] then None
    else if qs[|qs| - 1].id == id then Some(qs[|qs| - 1])
    else ById(qs[..|qs| - 1], id)
  }

  predicate IsBlank(v: Value) {
    (v.Txt? && Trim(v.text) == []) || (v.Choices? && v.ids == [])
  }

  predicate AllDistinct(ids: seq<Text>) { forall i, j :: 0 <= i < j < |ids| ==> ids[i] != ids[j] }

  predicate InScale(q: Question, v: Value) {
    var min := if q.scaleMin.Some? then q.scaleMin.value else RATING_MIN;
    var max := if q.scaleMax.Some? then q.scaleMax.value else RATING_MAX;
    v.Num? && v.number.Floor as real == v.number && min as real <= v.number <= max as real
  }

  /** The value fits its question: no error is reported for it. */
  predicate Fits(q: Question, v: Value) {
    match q.kind
    case OpenText => v.Txt? && |v.text| <= OPEN_TEXT_ANSWER_MAX_LENGTH
    case YesNo => v.Flag?
    case Scale => InScale(q, v)
    case Nps => InScale(q, v)
    case SingleChoice =>
      (v.Txt? && v.text in q.options) || (v.Choices? && |v.ids| == 1 && v.ids[0] in q.options)
    case MultipleChoice =>
      v.Choices? && AllDistinct(v.ids) && forall i :: 0 <= i < |v.ids| ==> v.ids[i] in q.options
  }

  /** A single choice is stored as a one-item list. */
  function Stored(q: Question, a: Answer): Answer {
    if q.kind.SingleChoice? && a.value.Txt? then Answer(q.id, Choices([a.value.text])) else a
  }

  function Proto(): Text { T("__proto__") }

  /** Assigning a string to `fieldErrors["__proto__"]` has no effect. */
  function Put(errors: map<Text, Problem>, key: Text, p: Problem): map<Text, Problem> {
    if key == Proto() then errors else errors[key := p]
  }

  datatype Checked = Checked(seen: set<Text>, accepted: seq<Answer>, errors: map<Text, Problem>)

  function Step(qs: seq<Question>, c: Checked, a: Answer): Checked {
    var q := ById(qs, a.questionId);
    if q.None? then c.(errors := Put(c.errors, a.questionId, NotInForm))
    else if a.questionId in c.seen then c.(errors := Put(c.errors, a.questionId, Repeated))
    else
      var c1 := c.(seen := c.seen + {a.questionId});
      if IsBlank(a.value) then c1
      else if !Fits(q.value, a.value) then c1.(errors := Put(c.errors, a.questionId, BadValue))
      else c1.(accepted := c.accepted + [Stored(q.value, a)])
  }

  function Scan(qs: seq<Question>, answers: seq<Answer>): Checked {
    if answers == [] then Checked({}, [], map[])
    else Step(qs, Scan(qs, answers[..|answers| - 1]), answers[|answers| - 1])
  }

  predicate Answered(accepted: seq<Answer>, id: Text) { exists i :: 0 <= i < |accepted| && accepted[i].questionId == id }

  function Required(qs: seq<Question>, accepted: seq<Answer>, errors: map<Text, Problem>): map<Text, Problem> {
    if qs == [] then errors
    else
      var before := Required(qs[..|qs| - 1], accepted, errors);
      var q := qs[|qs| - 1];
      if q.required && !Answered(accepted, q.id) && q.id !in before then Put(before, q.id, Missing) else before
  }

  function Check(qs: seq<Question>, answers: seq<Answer>): (seq<Answer>, map<Text, Problem>) {
    var c := Scan(qs, answers);
    (c.accepted, Required(qs, c.accepted, c.errors))
  }

  /* -------------------------------------- the code -------------------------------------- */

  method CheckFormAnswers(questions: seq<Question>, answers: seq<Answer>)
    returns (accepted: seq<Answer>, fieldErrors: map<Text, Problem>)
    requires FormRows(questions)
    ensures (accepted, fieldErrors) == Check(questions, answers)
  {
    hide ById, IsBlank, Fits, Stored, Put;
    var seen: set<Text> := {};
    accepted, fieldErrors := [], map[];
    for i := 0 to |answers|
      invariant Checked(seen, accepted, fieldErrors) == Scan(questions, answers[..i])
    {
      var answer := answers[i];
      assert answers[..i + 1][..i] == answers[..i];
      var question := ById(questions, answer.questionId);
      if question.None? {
        fieldErrors := Put(fieldErrors, answer.questionId, NotInForm);
        continue;
      }
      if question.value.id in seen {
        fieldErrors := Put(fieldErrors, question.value.id, Repeated);
        continue;
      }
      seen := seen + {question.value.id};
      if IsBlank(answer.value) { continue; }
      if !Fits(question.value, answer.value) {
        fieldErrors := Put(fieldErrors, question.value.id, BadValue);
      } else {
        accepted := accepted + [Stored(question.value, answer)];
      }
    }
    assert answers[..|answers|] == answers;
    ghost var scanned := fieldErrors;
    for i := 0 to |questions|
      invariant fieldErrors == Required(questions[..i], accepted, scanned)
    {
      var question := questions[i];
      assert questions[..i + 1][..i] == questions[..i];
      if question.required && !Answered(accepted, question.id) && question.id !in fieldErrors {
        fieldErrors := Put(fieldErrors, question.id, Missing);
      }
    }
    assert questions[..|questions|] == questions;
  }

  /* ------------------------------------- what passes ------------------------------------- */

  /** Answer `i` is in order: to a question of the form, the first to it, and blank or fitting. */
  ghost predicate AnswerOk(qs: seq<Question>, answers: seq<Answer>, i: nat)
    requires i < |answers|
  {
    var a := answers[i];
    && ById(qs, a.questionId).Some?
    && (forall j :: 0 <= j < i ==> answers[j].questionId != a.questionId)
    && (IsBlank(a.value) || Fits(ById(qs, a.questionId).value, a.value))
  }

  /** What is stored of answers that are all in order: the ones that are not blank. */
  function Kept(qs: seq<Question>, answers: seq<Answer>): seq<Answer> {
    if answers == [] then []
    else
      var a := answers[|answers| - 1];
      Kept(qs, answers[..|answers| - 1])
      + if IsBlank(a.value) || ById(qs, a.questionId).None? then [] else [Stored(ById(qs, a.questionId).value, a)]
  }

  ghost predicate AllOk(qs: seq<Question>, answers: seq<Answer>) {
    forall i :: 0 <= i < |answers| ==> answers[i].questionId == Proto() || AnswerOk(qs, answers, i)
  }

  lemma ProtoIsNoQuestion(qs: seq<Question>)
    requires FormRows(qs)
    ensures ById(qs, Proto()).None?
  {
    assert |Proto()| == 9;
  }

  lemma {:induction false} SeenIs(qs: seq<Question>, answers: seq<Answer>, id: Text)
    ensures id in Scan(qs, answers).seen <==>
            ById(qs, id).Some? && exists j :: 0 <= j < |answers| && answers[j].questionId == id
    decreases |answers|
  {
    hide ById, IsBlank, Fits, Stored, Put;
    if answers != [] {
      var init := answers[..|answers| - 1];
      SeenIs(qs, init, id);
      SeenIs(qs, init, answers[|init|].questionId);
      assert forall j :: 0 <= j < |init| ==> init[j] == answers[j];
      assert (exists j :: 0 <= j < |answers| && answers[j].questionId == id) <==>
        answers[|init|].questionId == id || exists j :: 0 <= j < |init| && init[j].questionId == id;
    }
  }

  lemma AllOkLast(qs: seq<Question>, answers: seq<Answer>)
    requires answers != []
    ensures AllOk(qs, answers) <==>
            AllOk(qs, answers[..|answers| - 1])
            && (answers[|answers| - 1].questionId == Proto() || AnswerOk(qs, answers, |answers| - 1))
  {
    hide ById, IsBlank, Fits;
    var init := answers[..|answers| - 1];
    forall i | 0 <= i < |init| ensures AnswerOk(qs, init, i) <==> AnswerOk(qs, answers, i) {}
  }

  /** The scan reports nothing exactly when every answer is in order, and then keeps what it should. */
  lemma {:induction false} ScanExactly(qs: seq<Question>, answers: seq<Answer>)
    requires FormRows(qs)
    ensures Scan(qs, answers).errors == map[] <==> AllOk(qs, answers)
    ensures AllOk(qs, answers) ==> Scan(qs, answers).accepted == Kept(qs, answers)
    decreases |answers|
  {
    hide FormRows, AllOk, ById, IsBlank, Fits, Stored, Proto, Put, AnswerOk;
    if answers == [] {
      NothingIsOk(qs);
    } else {
      var init := answers[..|answers| - 1];
      var a := answers[|init|];
      ScanExactly(qs, init);
      SeenIs(qs, init, a.questionId);
      AllOkLast(qs, answers);
      ProtoIsNoQuestion(qs);
      LastOk(qs, answers, Scan(qs, init).seen);
      var errors := Scan(qs, init).errors;
      PutReports(errors, a.questionId, NotInForm);
      PutReports(errors, a.questionId, Repeated);
      PutReports(errors, a.questionId, BadValue);
    }
  }

  lemma PutReports(errors: map<Text, Problem>, key: Text, p: Problem)
    ensures Put(errors, key, p) == map[] <==> key == Proto() && errors == map[]
  {
    hide Proto;
    assert key in errors[key := p];
  }

  lemma LastOk(qs: seq<Question>, answers: seq<Answer>, seen: set<Text>)
    requires answers != []
    requires var (init, id) := (answers[..|answers| - 1], answers[|answers| - 1].questionId);
             id in seen <==> ById(qs, id).Some? && exists j :: 0 <= j < |init| && init[j].questionId == id
    ensures var a := answers[|answers| - 1];
            AnswerOk(qs, answers, |answers| - 1) <==>
            && ById(qs, a.questionId).Some? && a.questionId !in seen
            && (IsBlank(a.value) || Fits(ById(qs, a.questionId).value, a.value))
  {
    hide ById, IsBlank, Fits;
    var init := answers[..|answers| - 1];
    assert forall j :: 0 <= j < |init| ==> init[j] == answers[j];
  }

  lemma NothingIsOk(qs: seq<Question>)
    ensures AllOk(qs, [])
  {}

  lemma {:induction false} RequiredExactly(qs: seq<Question>, accepted: seq<Answer>, errors: map<Text, Problem>)
    requires forall i :: 0 <= i < |qs| ==> qs[i].id != Proto()
    ensures Required(qs, accepted, errors) == map[] <==>
            errors == map[] && forall i :: 0 <= i < |qs| && qs[i].required ==> Answered(accepted, qs[i].id)
    decreases |qs|
  {
    hide Answered, Proto;
    if qs != [] { RequiredExactly(qs[..|qs| - 1], accepted, errors); }
  }

  /** There is an answer to `id` that is not blank. */
  ghost predicate AnsweredIn(answers: seq<Answer>, id: Text) {
    exists j :: 0 <= j < |answers| && answers[j].questionId == id && !IsBlank(answers[j].value)
  }

  ghost predicate Complete(qs: seq<Question>, answers: seq<Answer>) {
    forall i :: 0 <= i < |qs| && qs[i].required ==> AnsweredIn(answers, qs[i].id)
  }

  lemma KeptSplit(qs: seq<Question>, answers: seq<Answer>)
    requires answers != []
    ensures var (init, a) := (answers[..|answers| - 1], answers[|answers| - 1]);
            Kept(qs, answers) == Kept(qs, init) + if IsBlank(a.value) || ById(qs, a.questionId).None? then []
                                                  else [Stored(ById(qs, a.questionId).value, a)]
  {}

  lemma {:induction false} KeptFrom(qs: seq<Question>, answers: seq<Answer>, id: Text)
    ensures Answered(Kept(qs, answers), id) <==>
            ById(qs, id).Some? && AnsweredIn(answers, id)
    decreases |answers|
  {
    hide ById, IsBlank, Kept;
    if answers != [] {
      var init := answers[..|answers| - 1];
      var a := answers[|init|];
      KeptFrom(qs, init, id);
      KeptSplit(qs, answers);
      AnsweredParts(Kept(qs, init), if IsBlank(a.value) || ById(qs, a.questionId).None? then []
                                    else [Stored(ById(qs, a.questionId).value, a)], id);
      AnsweredOne(a, id);
      if ById(qs, a.questionId).Some? { AnsweredOne(Stored(ById(qs, a.questionId).value, a), id); }
      assert (exists j :: 0 <= j < |answers| && answers[j].questionId == id && !IsBlank(answers[j].value)) <==>
        (a.questionId == id && !IsBlank(a.value))
        || exists j :: 0 <= j < |init| && init[j].questionId == id && !IsBlank(init[j].value) by {
        assert forall j :: 0 <= j < |init| ==> init[j] == answers[j];
      }
    } else {
      assert Kept(qs, answers) == [] by { KeptNothing(qs); }
    }
  }

  lemma KeptNothing(qs: seq<Question>)
    ensures Kept(qs, []) == []
  {}

  lemma AnsweredOne(a: Answer, id: Text)
    ensures Answered([a], id) <==> a.questionId == id
    ensures !Answered([], id)
  {
    assert [a][0] == a;
  }

  lemma AnsweredParts(a: seq<Answer>, b: seq<Answer>, id: Text)
    ensures Answered(a + b, id) <==> Answered(a, id) || Answered(b, id)
  {
    if Answered(a, id) {
      var i :| 0 <= i < |a| && a[i].questionId == id;
      assert (a + b)[i].questionId == id;
    }
    if Answered(b, id) {
      var i :| 0 <= i < |b| && b[i].questionId == id;
      assert (a + b)[|a| + i].questionId == id;
    }
  }

  lemma CompleteIs(qs: seq<Question>, answers: seq<Answer>)
    ensures Complete(qs, answers) <==>
            forall i :: 0 <= i < |qs| && qs[i].required ==> Answered(Kept(qs, answers), qs[i].id)
  {
    hide Kept, Answered, AnsweredIn;
    forall i | 0 <= i < |qs| ensures AnsweredIn(answers, qs[i].id) <==> Answered(Kept(qs, answers), qs[i].id) {
      KeptFrom(qs, answers, qs[i].id);
      assert qs[i] in qs;
    }
  }

  /**
   * The check reports nothing exactly when every answer, but for answers to a
   * question called `__proto__`, is in order and every required question is
   * answered; the accepted list is then the answers that are not blank, in order.
   */
  lemma PassesExactlyWhen(qs: seq<Question>, answers: seq<Answer>)
    requires FormRows(qs)
    ensures Check(qs, answers).1 == map[] <==> AllOk(qs, answers) && Complete(qs, answers)
    ensures Check(qs, answers).1 == map[] ==> Check(qs, answers).0 == Kept(qs, answers)
  {
    hide Scan, Required, AllOk, ById, Kept, Answered, Complete;
    assert |Proto()| == 9;
    hide Proto;
    ScanExactly(qs, answers);
    CompleteIs(qs, answers);
    var c := Scan(qs, answers);
    RequiredExactly(qs, c.accepted, c.errors);
  }

  /** An answer to a question called `__proto__` is neither accepted nor reported. */
  lemma ProtoIsSwallowed(qs: seq<Question>, v: Value)
    requires FormRows(qs) && forall i :: 0 <= i < |qs| ==> !qs[i].required
    ensures Check(qs, [Answer(T("__proto__"), v)]) == ([], map[])
  {
    var answers := [Answer(Proto(), v)];
    ProtoIsNoQuestion(qs);
    assert AllOk(qs, answers);
    PassesExactlyWhen(qs, answers);
    KeptSplit(qs, answers);
    assert answers[..0] == [];
  }

  /* -------------------------- what is accepted and what is reported -------------------------- */

  /** No answer: a text of white space, or an empty list. */
  ghost predicate Blank(v: Value) {
    match v
    case Txt(text) => forall i :: 0 <= i < |text| ==> IsSpace(text[i])
    case Choices(ids) => |ids| == 0
    case _ => false
  }

  /** What a question takes for an answer, kind by kind. */
  ghost predicate Acceptable(q: Question, v: Value) {
    match q.kind
    case OpenText => v.Txt? && |v.text| <= 5000 && exists i :: 0 <= i < |v.text| && !IsSpace(v.text[i])
    case YesNo => v == Flag(true) || v == Flag(false)
    case Scale => WholeBetween(v, if q.scaleMin.Some? then q.scaleMin.value else 0,
                               if q.scaleMax.Some? then q.scaleMax.value else 10)
    case Nps => WholeBetween(v, if q.scaleMin.Some? then q.scaleMin.value else 0,
                             if q.scaleMax.Some? then q.scaleMax.value else 10)
    case SingleChoice => !Blank(v) && exists o :: o in q.options && (v == Txt(o) || v == Choices([o]))
    case MultipleChoice =>
      v.Choices? && |v.ids| > 0
      && (forall i :: 0 <= i < |v.ids| ==> v.ids[i] in q.options)
      && (forall i, j :: 0 <= i < |v.ids| && 0 <= j < |v.ids| && v.ids[i] == v.ids[j] ==> i == j)
  }

  ghost predicate WholeBetween(v: Value, min: int, max: int) {
    v.Num? && v.number == v.number.Floor as real && min <= v.number.Floor <= max
  }

  lemma BlankIs(v: Value)
    ensures IsBlank(v) <==> Blank(v)
  {
    if v.Txt? { TrimsToNothing(v.text); }
  }

  lemma InScaleIs(q: Question, v: Value)
    ensures InScale(q, v) <==> WholeBetween(v, if q.scaleMin.Some? then q.scaleMin.value else 0,
                                            if q.scaleMax.Some? then q.scaleMax.value else 10)
  {}

  lemma ChoiceIs(q: Question, v: Value)
    requires q.kind.SingleChoice? || q.kind.MultipleChoice?
    ensures Acceptable(q, v) <==> Fits(q, v) && !Blank(v)
  {
    if q.kind.SingleChoice? {
      if v.Choices? && |v.ids| == 1 { assert v == Choices([v.ids[0]]); }
      if v.Txt? { assert v == Txt(v.text); }
    }
  }

  lemma FitsIs(q: Question, v: Value)
    ensures Acceptable(q, v) <==> Fits(q, v) && !IsBlank(v)
  {
    BlankIs(v);
    InScaleIs(q, v);
    if q.kind.SingleChoice? || q.kind.MultipleChoice? { ChoiceIs(q, v); }
    if q.kind.OpenText? && v.Txt? {
      assert Blank(v) <==> !exists i :: 0 <= i < |v.text| && !IsSpace(v.text[i]);
    }
    hide InScale, IsBlank, WholeBetween, IsSpace;
  }

  /** The values given to the question `id`, in order. */
  function GivenTo(answers: seq<Answer>, id: Text): seq<Value> {
    if answers == [] then []
    else
      var a := answers[|answers| - 1];
      GivenTo(answers[..|answers| - 1], id) + if a.questionId == id then [a.value] else []
  }

  lemma GivenPush(answers: seq<Answer>, a: Answer, id: Text)
    ensures GivenTo(answers + [a], id) == GivenTo(answers, id) + if a.questionId == id then [a.value] else []
  {
    assert (answers + [a])[..|answers|] == answers;
  }

  lemma {:induction false} GivenIsAnswered(accepted: seq<Answer>, id: Text)
    ensures Answered(accepted, id) <==> GivenTo(accepted, id) != []
    decreases |accepted|
  {
    if accepted != [] {
      var init, a := accepted[..|accepted| - 1], accepted[|accepted| - 1];
      GivenIsAnswered(init, id);
      AnsweredParts(init, [a], id);
      AnsweredOne(a, id);
      assert init + [a] == accepted;
    }
  }

  lemma TheQuestion(qs: seq<Question>, q: Question)
    requires FormRows(qs) && q in qs
    ensures ById(qs, q.id) == Some(q) && q.id != Proto()
  {
    ProtoIsNoQuestion(qs);
    var r := ById(qs, q.id);
    assert r.Some?;
  }

  /** The scan's share in it, in terms of the values given to one question. */
  ghost predicate ScanOk(c: Checked, q: Question, vs: seq<Value>) {
    && (q.id in c.seen <==> vs != [])
    && (q.id in c.errors <==> |vs| >= 2 || (|vs| == 1 && !IsBlank(vs[0]) && !Fits(q, vs[0])))
    && (q.id in c.errors ==> c.errors[q.id] == if |vs| >= 2 then Repeated else BadValue)
    && GivenTo(c.accepted, q.id) ==
       if vs != [] && !IsBlank(vs[0]) && Fits(q, vs[0]) then [Stored(q, Answer(q.id, vs[0])).value] else []
  }

  lemma StepFor(qs: seq<Question>, c: Checked, a: Answer, q: Question, vs: seq<Value>)
    requires ById(qs, q.id) == Some(q) && q.id != Proto() && ScanOk(c, q, vs)
    ensures ScanOk(Step(qs, c, a), q, vs + if a.questionId == q.id then [a.value] else [])
  {
    hide IsBlank, Fits, Proto, GivenTo, ById;
    var found := ById(qs, a.questionId);
    if found.Some? { GivenPush(c.accepted, Stored(found.value, a), q.id); }
    if a.questionId != q.id {
      assert vs + [] == vs;
      assert forall k: seq<Value> :: k + [] == k;
    } else {
      StepForSame(qs, c, a, q, vs);
    }
  }

  lemma StepForSame(qs: seq<Question>, c: Checked, a: Answer, q: Question, vs: seq<Value>)
    requires ById(qs, q.id) == Some(q) && q.id != Proto() && ScanOk(c, q, vs) && a.questionId == q.id
    ensures ScanOk(Step(qs, c, a), q, vs + [a.value])
  {
    hide IsBlank, Fits, Proto, GivenTo, ById, Stored;
    GivenPush(c.accepted, Stored(q, a), q.id);
    StoredIsTo(q, a);
    if vs == [] { assert vs + [a.value] == [a.value]; } else { assert (vs + [a.value])[0] == vs[0]; }
  }

  lemma StoredIsTo(q: Question, a: Answer)
    requires a.questionId == q.id
    ensures Stored(q, a).questionId == q.id && Stored(q, a) == Stored(q, Answer(q.id, a.value))
  {}

  lemma {:induction false} ScanFor(qs: seq<Question>, answers: seq<Answer>, q: Question)
    requires FormRows(qs) && q in qs
    ensures ScanOk(Scan(qs, answers), q, GivenTo(answers, q.id))
    decreases |answers|
  {
    hide FormRows, Step, Proto;
    TheQuestion(qs, q);
    if answers != [] {
      ScanFor(qs, answers[..|answers| - 1], q);
      hide ScanOk;
      StepFor(qs, Scan(qs, answers[..|answers| - 1]), answers[|answers| - 1], q, GivenTo(answers[..|answers| - 1], q.id));
    }
  }

  /** A name that is no question's: nothing is accepted, and the scan reports it if it was used. */
  lemma {:induction false} ScanForeign(qs: seq<Question>, answers: seq<Answer>, id: Text)
    requires ById(qs, id).None? && id != Proto()
    ensures GivenTo(Scan(qs, answers).accepted, id) == []
    ensures id in Scan(qs, answers).errors <==> GivenTo(answers, id) != []
    ensures id in Scan(qs, answers).errors ==> Scan(qs, answers).errors[id] == NotInForm
    decreases |answers|
  {
    hide Step, ById, Proto;
    if answers != [] {
      var init, a := answers[..|answers| - 1], answers[|answers| - 1];
      ScanForeign(qs, init, id);
      ForeignStep(qs, Scan(qs, init), a, id);
    }
  }

  lemma ForeignStep(qs: seq<Question>, c: Checked, a: Answer, id: Text)
    requires ById(qs, id).None? && id != Proto() && GivenTo(c.accepted, id) == []
    requires id in c.errors ==> c.errors[id] == NotInForm
    ensures var c' := Step(qs, c, a);
            && GivenTo(c'.accepted, id) == []
            && (id in c'.errors <==> id in c.errors || a.questionId == id)
            && (id in c'.errors ==> c'.errors[id] == NotInForm)
  {
    hide IsBlank, Fits, Proto, ById, GivenTo;
    var found := ById(qs, a.questionId);
    if found.Some? { GivenPush(c.accepted, Stored(found.value, a), id); }
  }

  /** The pass over required questions adds only what is missing. */
  lemma {:induction false} RequiredFor(qs: seq<Question>, accepted: seq<Answer>, errors: map<Text, Problem>, id: Text)
    requires forall i :: 0 <= i < |qs| ==> qs[i].id != Proto()
    ensures var all := Required(qs, accepted, errors);
            && (id in errors ==> id in all && all[id] == errors[id])
            && (id !in errors ==>
                  (id in all <==> !Answered(accepted, id) && exists q :: q in qs && q.id == id && q.required)
                  && (id in all ==> all[id] == Missing))
    decreases |qs|
  {
    hide Answered, Proto;
    if qs != [] {
      var init, last := qs[..|qs| - 1], qs[|qs| - 1];
      RequiredFor(init, accepted, errors, id);
      assert qs == init + [last];
      assert last in qs && forall q :: q in qs <==> q in init || q == last;
    }
  }

  /**
   * The whole check, for every input and every question of the form. With `vs` the
   * values given to it in order: the first of them is accepted if the question takes
   * it, and nothing else to that question is; two or more are reported as repeated, a
   * single one that is neither blank nor taken as bad, and no answer or a single
   * blank one to a required question as missing. Nothing else is reported of it.
   */
  lemma CheckExactly(qs: seq<Question>, answers: seq<Answer>, q: Question)
    requires FormRows(qs) && q in qs
    ensures var ((accepted, errors), vs) := (Check(qs, answers), GivenTo(answers, q.id));
            var report := if q.id in errors then Some(errors[q.id]) else None;
            && GivenTo(accepted, q.id) == (
                 if |vs| == 0 || !Acceptable(q, vs[0]) then []
                 else if q.kind.SingleChoice? && vs[0].Txt? then [Choices([vs[0].text])]
                 else [vs[0]])
            && (report == Some(Repeated) <==> |vs| >= 2)
            && (report == Some(BadValue) <==> |vs| == 1 && !Blank(vs[0]) && !Acceptable(q, vs[0]))
            && (report == Some(Missing) <==> q.required && (|vs| == 0 || (|vs| == 1 && Blank(vs[0]))))
            && report != Some(NotInForm)
  {
    hide Scan, Required, FormRows;
    TheQuestion(qs, q);
    NoneIsProto(qs);
    ScanFor(qs, answers, q);
    var vs := GivenTo(answers, q.id);
    if vs != [] {
      FitsIs(q, vs[0]);
      BlankIs(vs[0]);
    }
    hide Acceptable, Blank, IsBlank, Fits, Proto, GivenTo, ById, Answered;
    var c := Scan(qs, answers);
    GivenIsAnswered(c.accepted, q.id);
    RequiredFor(qs, c.accepted, c.errors, q.id);
    forall r | r in qs && r.id == q.id ensures r == q { TheQuestion(qs, r); }
  }

  lemma NoneIsProto(qs: seq<Question>)
    requires FormRows(qs)
    ensures forall i :: 0 <= i < |qs| ==> qs[i].id != Proto()
  {
    assert |Proto()| == 9;
  }

  /** Under any name that is no question's, but for `__proto__`, answers are reported and never accepted. */
  lemma ForeignExactly(qs: seq<Question>, answers: seq<Answer>, id: Text)
    requires FormRows(qs) && id != T("__proto__") && forall q :: q in qs ==> q.id != id
    ensures var (accepted, errors) := Check(qs, answers);
            && GivenTo(accepted, id) == []
            && (id in errors <==> GivenTo(answers, id) != [])
            && (id in errors ==> errors[id] == NotInForm)
  {
    NoneIsProto(qs);
    ScanForeign(qs, answers, id);
    hide Scan, GivenTo, FormRows, Answered;
    RequiredFor(qs, Scan(qs, answers).accepted, Scan(qs, answers).errors, id);
  }

  /* ------------------------------------ what is stored ------------------------------------ */

  lemma StoredFits(q: Question, a: Answer)
    requires a.questionId == q.id && Fits(q, a.value) && !IsBlank(a.value)
    ensures var s := Stored(q, a);
            s.questionId == q.id && Fits(q, s.value) && !IsBlank(s.value) && Stored(q, s) == s
  {}

  ghost predicate Good(qs: seq<Question>, k: Answer) {
    var q := ById(qs, k.questionId);
    q.Some? && !IsBlank(k.value) && Fits(q.value, k.value) && Stored(q.value, k) == k
  }

  /** Every kept answer is to a question of the form, fits it, is not blank, and is the only one to it. */
  lemma {:induction false} KeptIsGood(qs: seq<Question>, answers: seq<Answer>)
    requires FormRows(qs) && AllOk(qs, answers)
    ensures forall i :: 0 <= i < |Kept(qs, answers)| ==> Good(qs, Kept(qs, answers)[i])
    ensures forall i, j :: 0 <= i < j < |Kept(qs, answers)| ==>
              Kept(qs, answers)[i].questionId != Kept(qs, answers)[j].questionId
    decreases |answers|
  {
    hide FormRows, AllOk, AnswerOk, ById, IsBlank, Fits, Stored, Kept, Proto, Good, Answered;
    if answers == [] {
      KeptNothing(qs);
    } else {
      var init := answers[..|answers| - 1];
      var a := answers[|init|];
      AllOkLast(qs, answers);
      KeptIsGood(qs, init);
      KeptSplit(qs, answers);
      ProtoIsNoQuestion(qs);
      if !IsBlank(a.value) && ById(qs, a.questionId).Some? {
        var s := Stored(ById(qs, a.questionId).value, a);
        LastIsGood(qs, answers);
        KeptFrom(qs, init, a.questionId);
        NotAnswered(Kept(qs, init), a.questionId);
      }
    }
  }

  lemma LastIsGood(qs: seq<Question>, answers: seq<Answer>)
    requires answers != [] && AnswerOk(qs, answers, |answers| - 1)
    ensures var (init, a) := (answers[..|answers| - 1], answers[|answers| - 1]);
            && !AnsweredIn(init, a.questionId)
            && (!IsBlank(a.value) && ById(qs, a.questionId).Some? ==>
                  && Good(qs, Stored(ById(qs, a.questionId).value, a))
                  && Stored(ById(qs, a.questionId).value, a).questionId == a.questionId)
  {
    hide ById, IsBlank, Fits, Stored;
    var a := answers[|answers| - 1];
    var init := answers[..|answers| - 1];
    assert forall j :: 0 <= j < |init| ==> init[j] == answers[j];
    if !IsBlank(a.value) && ById(qs, a.questionId).Some? { StoredFits(ById(qs, a.questionId).value, a); }
  }

  lemma NotAnswered(k: seq<Answer>, id: Text)
    ensures !Answered(k, id) ==> forall i :: 0 <= i < |k| ==> k[i].questionId != id
  {}

  lemma {:induction false} GoodStays(qs: seq<Question>, k: seq<Answer>)
    requires forall i :: 0 <= i < |k| ==> Good(qs, k[i])
    ensures Kept(qs, k) == k
    decreases |k|
  {
    hide ById, IsBlank, Fits, Stored, Kept;
    if k != [] {
      GoodStays(qs, k[..|k| - 1]);
      KeptSplit(qs, k);
      assert Good(qs, k[|k| - 1]);
    } else {
      KeptNothing(qs);
    }
  }

  /** A list of good answers, each to its own question, is in order and is kept as it is. */
  lemma GoodIsKept(qs: seq<Question>, k: seq<Answer>)
    requires forall i :: 0 <= i < |k| ==> Good(qs, k[i])
    requires forall i, j :: 0 <= i < j < |k| ==> k[i].questionId != k[j].questionId
    ensures AllOk(qs, k) && Kept(qs, k) == k
  {
    hide ById, IsBlank, Fits, Stored, Kept;
    GoodStays(qs, k);
    forall i | 0 <= i < |k| ensures AnswerOk(qs, k, i) { assert Good(qs, k[i]); }
  }

  /**
   * Checking what was accepted, when nothing was reported, accepts it unchanged
   * and reports nothing: one fitting answer to every required question, none twice.
   */
  lemma CheckedTwice(qs: seq<Question>, answers: seq<Answer>)
    requires FormRows(qs) && Check(qs, answers).1 == map[]
    ensures var accepted := Check(qs, answers).0;
            && Check(qs, accepted) == (accepted, map[])
            && (forall i :: 0 <= i < |accepted| ==> Good(qs, accepted[i]))
            && (forall i, j :: 0 <= i < j < |accepted| ==> accepted[i].questionId != accepted[j].questionId)
            && (forall i :: 0 <= i < |qs| && qs[i].required ==> Answered(accepted, qs[i].id))
  {
    hide Check, FormRows, AllOk, Kept, Good, Complete, Answered;
    PassesExactlyWhen(qs, answers);
    var accepted := Kept(qs, answers);
    KeptIsGood(qs, answers);
    GoodIsKept(qs, accepted);
    CompleteIs(qs, answers);
    CompleteIs(qs, accepted);
    PassesExactlyWhen(qs, accepted);
  }
}
