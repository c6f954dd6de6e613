/**
 * The intake dialogue of intake-desk.ts. An answer stands for what the text tests read off it:
 * which option it picks or mentions, whether it is talk, a yes, a skip. Numbers in the phone
 * answer are already in Latin digits.
 */
module Intake {
  import opened Text

  datatype Step = Questions | Name | Phone | Type | Part | Side | Size | Design | Body | Confirm

  datatype Request = New | Coverup | Consultation | Repair | Continuation | Custom

  datatype BodyPart =
    | Forearm | Arm | Hand | Finger | Chest | Belly | Flank | Back | Neck | Head | Thigh | Shin | Knee | Wrist | Foot

  datatype BodySide = Right | Left | Center

  datatype Draft = Draft(
    step: Step, fixing: bool, name: string, phone: string, requestType: Option<Request>, part: Option<BodyPart>,
    side: Option<BodySide>, size: Option<(real, real)>, imageDesign: bool, imageCurrent: bool, preferredDay: string)

  datatype Pick =
    | PickType(request: Request) | PickPart(part: BodyPart) | PickSide(side: BodySide) | PickFix(step: Step) | PickOther

  datatype Answer = Answer(
    blank: bool, pick: Option<Pick>, doneAsking: bool, talk: bool, sent: bool, yes: bool, skip: bool, same: bool,
    name: string, digits: string,
    requests: set<Request>, parts: set<BodyPart>, hints: set<BodyPart>, sides: set<BodySide>,
    numbers: Option<(real, real)>, designImage: Option<bool>, currentImage: Option<bool>)

  datatype Payload = Payload(
    name: string, phone: string, requestType: Option<Request>,
    part: Option<BodyPart>, side: Option<BodySide>, size: Option<(real, real)>)

  datatype Turn = Turn(draft: Draft, payload: Option<Payload>, needsModel: bool)

  /** The part of the name test that reads Persian text: a Persian letter, no digit, no talk. */
  type NameTest = string -> bool

  const ORDER: seq<Step> := [Name, Phone, Type, Part, Side, Size, Design, Body, Confirm]
  const TYPES: seq<Request> := [New, Coverup, Consultation, Repair, Continuation, Custom]
  const PARTS: seq<BodyPart> :=
    [Forearm, Arm, Hand, Finger, Chest, Belly, Flank, Back, Neck, Head, Thigh, Shin, Knee, Wrist, Foot]
  const HINTS: seq<BodyPart> :=
    [Neck, Forearm, Arm, Finger, Chest, Belly, Flank, Back, Knee, Shin, Thigh, Wrist, Foot, Hand, Head]
  const SIDES: seq<BodySide> := [Right, Left, Center]

  // Phones.

  /** `normalizeIranPhone` on the digits of a text. */
  function NormalizeIranPhone(digits: string): string {
    var d := if "0098" <= digits then digits[4..] else if "98" <= digits then digits[2..] else digits;
    if "9" <= d && |d| == 10 then "0" + d else d
  }

  /** Eleven digits starting with 09. */
  predicate Canonical(phone: string) {
    |phone| == 11 && "09" <= phone && AllDigits(phone)
  }

  predicate IsIranMobile(digits: string) {
    Canonical(NormalizeIranPhone(digits))
  }

  // Reading an answer.

  /** The first option that is picked or mentioned. */
  function FirstOf<T(==)>(options: seq<T>, picked: Option<T>, mentioned: set<T>): (r: Option<T>)
    ensures r.Some? ==> r.value in options && (picked == r || r.value in mentioned)
    ensures r.None? ==> forall o :: o in options ==> picked != Some(o) && o !in mentioned
  {
    if options == [] then None
    else if picked == Some(options[0]) || options[0] in mentioned then Some(options[0])
    else FirstOf(options[1..], picked, mentioned)
  }

  function PickedType(x: Answer): Option<Request> {
    match x.pick case Some(PickType(t)) => Some(t) case _ => None
  }

  function PickedPart(x: Answer): Option<BodyPart> {
    match x.pick case Some(PickPart(p)) => Some(p) case _ => None
  }

  function PickedSide(x: Answer): Option<BodySide> {
    match x.pick case Some(PickSide(s)) => Some(s) case _ => None
  }

  function MentionedPart(x: Answer): Option<BodyPart> {
    FirstOf(HINTS, None, x.hints)
  }

  function ParseSize(x: Answer): Option<(real, real)> {
    match x.numbers
    case None => None
    case Some((w, h)) => if w < 1.0 || w > 60.0 || h < 1.0 || h > 60.0 then None else Some((w, h))
  }

  predicate NeedsBody(d: Draft) {
    d.requestType == Some(Coverup) || d.requestType == Some(Repair)
  }

  /** `check`: the draft with the answer filled in, or None for an error. */
  function Check(test: NameTest, d: Draft, x: Answer): Option<Draft> {
    match d.step
    case Name => if |x.name| < 5 || !test(x.name) then None else Some(d.(name := x.name))
    case Phone =>
      var phone := NormalizeIranPhone(x.digits);
      if IsIranMobile(phone) then Some(d.(phone := phone)) else None
    case Type =>
      (match FirstOf(TYPES, PickedType(x), x.requests)
       case None => None
       case Some(t) => Some(d.(requestType := Some(t))))
    case Part =>
      if d.part.Some? && x.same then Some(d)
      else (match FirstOf(PARTS, PickedPart(x), x.parts) case None => None case Some(p) => Some(d.(part := Some(p))))
    case Side =>
      (match FirstOf(SIDES, PickedSide(x), x.sides) case None => None case Some(s) => Some(d.(side := Some(s))))
    case Size =>
      (match ParseSize(x) case None => None case Some(s) => Some(d.(size := Some(s))))
    case Design =>
      if x.skip && d.requestType == Some(Consultation) then Some(d) else if d.imageDesign then Some(d) else None
    case Body => if d.imageCurrent then Some(d) else None
    case _ => None
  }

  // Turns.

  function ToPayload(d: Draft): Payload {
    Payload(d.name, d.phone, d.requestType, d.part, d.side, d.size)
  }

  function Speak(d: Draft): Turn {
    Turn(d, None, false)
  }

  function ShowConfirm(d: Draft): Turn {
    Speak(d.(step := Confirm, fixing := false))
  }

  function Ask(d: Draft, step: Step): Turn {
    if step == Confirm then
      var ready := d.(step := Confirm, fixing := false);
      Turn(ready, Some(ToPayload(ready)), false)
    else Speak(d.(step := step))
  }

  /** `ORDER.indexOf`, with "questions" before the first step. */
  function Place(step: Step): (k: int)
    ensures -1 <= k <= 8
  {
    match step
    case Questions => -1 case Name => 0 case Phone => 1 case Type => 2 case Part => 3 case Side => 4
    case Size => 5 case Design => 6 case Body => 7 case Confirm => 8
  }

  function StepAfter(d: Draft): Step {
    var next := if Place(d.step) + 1 < |ORDER| then ORDER[Place(d.step) + 1] else Confirm;
    if next == Body && !NeedsBody(d) then Confirm else next
  }

  function ConfirmTurn(d: Draft, x: Answer): Turn {
    if x.yes then ShowConfirm(d).(payload := Some(ToPayload(d)))
    else
      match x.pick
      case Some(PickFix(step)) =>
        if step in ORDER && step != Confirm && (step != Body || NeedsBody(d))
        then Ask(d.(fixing := true), step)
        else Speak(d)
      case _ => Speak(d)
  }

  function WithImages(d: Draft, x: Answer): Draft {
    d.(imageDesign := if x.designImage.Some? then x.designImage.value else d.imageDesign,
       imageCurrent := if x.currentImage.Some? then x.currentImage.value else d.imageCurrent)
  }

  /** A question for the assistant rather than an answer. */
  predicate IsTalk(d: Draft, x: Answer) {
    || d.step == Questions
    || (x.talk && x.pick.None? && !x.sent && !(d.step == Phone && IsIranMobile(NormalizeIranPhone(x.digits))))
  }

  /** After an accepted answer: back to confirm from a fix, or on to the next question. */
  function Advance(filled: Draft): Turn {
    if filled.fixing then ShowConfirm(filled.(fixing := false)) else Ask(filled, StepAfter(filled))
  }

  function AnswerIntake(test: NameTest, d: Draft, x: Answer): Turn {
    var next := WithImages(d, x);
    if x.blank then Speak(next)
    else if next.step == Questions && x.doneAsking then Speak(next.(step := Name))
    else if IsTalk(next, x) then
      var heard := if MentionedPart(x).Some? && next.part.None? then next.(part := MentionedPart(x)) else next;
      Speak(heard).(needsModel := true)
    else if next.step == Confirm then ConfirmTurn(next, x)
    else
      match Check(test, next, x)
      case None => Speak(next)
      case Some(filled) => Advance(filled)
  }

  const BlankDraft := Draft(Questions, false, "", "", None, None, None, None, false, false, "")

  function StartIntake(preferredDay: string): Draft {
    BlankDraft.(preferredDay := preferredDay)
  }

  function StartBooking(preferredDay: string): Draft {
    BlankDraft.(step := Name, preferredDay := preferredDay)
  }

  // Runs.

  function After(test: NameTest, d: Draft, answers: seq<Answer>): Draft {
    if answers == [] then d
    else AnswerIntake(test, After(test, d, answers[..|answers| - 1]), answers[|answers| - 1]).draft
  }

  /** The payload of the last turn of a run. */
  function Emitted(test: NameTest, d: Draft, answers: seq<Answer>): Option<Payload>
    requires answers != []
  {
    AnswerIntake(test, After(test, d, answers[..|answers| - 1]), answers[|answers| - 1]).payload
  }

  predicate SizeOk(size: Option<(real, real)>) {
    size.Some? && 1.0 <= size.value.0 <= 60.0 && 1.0 <= size.value.1 <= 60.0
  }

  /** Every field asked for before place k holds an accepted value. */
  predicate Filled(test: NameTest, d: Draft, k: int) {
    && (k > 0 ==> |d.name| >= 5 && test(d.name))
    && (k > 1 ==> IsIranMobile(d.phone))
    && (k > 2 ==> d.requestType.Some?)
    && (k > 3 ==> d.part.Some?)
    && (k > 4 ==> d.side.Some?)
    && (k > 5 ==> SizeOk(d.size))
  }

  predicate Sound(test: NameTest, d: Draft) {
    && Filled(test, d, if d.fixing then 8 else Place(d.step))
    && (d.fixing ==> 0 <= Place(d.step) <= 7)
  }

  predicate Complete(test: NameTest, p: Payload) {
    && |p.name| >= 5 && test(p.name) && IsIranMobile(p.phone)
    && p.requestType.Some? && p.part.Some? && p.side.Some? && SizeOk(p.size)
  }

  lemma CheckFills(test: NameTest, d: Draft, x: Answer)
    requires Sound(test, d) && Check(test, d, x).Some?
    ensures var e := Check(test, d, x).value;
            e.step == d.step && e.fixing == d.fixing && Filled(test, e, if d.fixing then 8 else Place(d.step) + 1)
  {
    hide NormalizeIranPhone, FirstOf;
  }

  /** The question after an answered one: the next in order, except that the body image is only asked when needed. */
  lemma StepAfterIs(d: Draft)
    requires 0 <= Place(d.step) <= 7
    ensures var next := StepAfter(d);
            && (d.step == Design ==> next == (if NeedsBody(d) then Body else Confirm))
            && (d.step != Design ==> Place(next) == Place(d.step) + 1)
            && (next == Confirm <==> d.step == Body || (d.step == Design && !NeedsBody(d)))
  {
    assert ORDER[Place(d.step) + 1] ==
      match d.step case Name => Phone case Phone => Type case Type => Part case Part => Side case Side => Size
        case Size => Design case Design => Body case _ => Confirm;
  }

  lemma AskSound(test: NameTest, d: Draft, step: Step)
    requires Filled(test, d, if d.fixing then 8 else Place(step)) && 0 <= Place(step)
    requires step == Confirm ==> Filled(test, d, 8)
    ensures var t := Ask(d, step);
            && Sound(test, t.draft)
            && (t.payload.Some? ==> t.draft.step == Confirm && Complete(test, t.payload.value))
  {
    hide NormalizeIranPhone;
  }

  lemma ConfirmSound(test: NameTest, d: Draft, x: Answer)
    requires d.step == Confirm && Sound(test, d)
    ensures var t := ConfirmTurn(d, x);
            && Sound(test, t.draft)
            && (t.payload.Some? ==> t.draft.step == Confirm && Complete(test, t.payload.value))
  {
    hide NormalizeIranPhone;
    if !x.yes && x.pick.Some? && x.pick.value.PickFix? {
      var step := x.pick.value.step;
      if step in ORDER && step != Confirm && (step != Body || NeedsBody(d)) {
        assert step != Questions;
        AskSound(test, d.(fixing := true), step);
      }
    }
  }

  lemma AdvanceSound(test: NameTest, d: Draft)
    requires 0 <= Place(d.step) <= 7 && Filled(test, d, if d.fixing then 8 else Place(d.step) + 1)
    ensures var t := Advance(d);
            && Sound(test, t.draft)
            && (t.payload.Some? ==> t.draft.step == Confirm && Complete(test, t.payload.value))
  {
    hide IsIranMobile, Ask, StepAfter, Complete;
    if !d.fixing {
      StepAfterIs(d);
      FilledEarlier(test, d, Place(d.step) + 1, Place(StepAfter(d)));
      AskSound(test, d, StepAfter(d));
    }
  }

  lemma TurnSound(test: NameTest, d: Draft, x: Answer)
    requires Sound(test, d)
    ensures var t := AnswerIntake(test, d, x);
            && Sound(test, t.draft)
            && (t.payload.Some? ==> t.draft.step == Confirm && Complete(test, t.payload.value))
  {
    hide IsIranMobile, FirstOf, Check, Advance, ConfirmTurn, Complete, IsTalk;
    var next := WithImages(d, x);
    if next.step == Confirm {
      ConfirmSound(test, next, x);
    } else if Check(test, next, x).Some? {
      CheckFills(test, next, x);
      CheckKeeps(test, next, x);
      AdvanceSound(test, Check(test, next, x).value);
    }
  }

  lemma FilledEarlier(test: NameTest, d: Draft, k: int, j: int)
    requires Filled(test, d, k) && (j <= k || k >= 6)
    ensures Filled(test, d, j)
  {
  }

  /** On every run a payload is emitted only in confirm, with every field accepted; and no turn loses one. */
  lemma {:induction false} PayloadsComplete(test: NameTest, day: string, booking: bool, answers: seq<Answer>)
    ensures var d := if booking then StartBooking(day) else StartIntake(day);
            && Sound(test, After(test, d, answers))
            && (answers != [] && Emitted(test, d, answers).Some? ==>
                  After(test, d, answers).step == Confirm && Complete(test, Emitted(test, d, answers).value))
  {
    hide AnswerIntake, Sound, Complete;
    var d := if booking then StartBooking(day) else StartIntake(day);
    if answers == [] {
      assert Sound(test, d) by {
        StartSound(test, day);
      }
    } else {
      PayloadsComplete(test, day, booking, answers[..|answers| - 1]);
      TurnSound(test, After(test, d, answers[..|answers| - 1]), answers[|answers| - 1]);
    }
  }

  lemma StartSound(test: NameTest, day: string)
    ensures Sound(test, StartIntake(day)) && Sound(test, StartBooking(day))
  {
  }

  /** The longest text of digits that one country code, if there is one, accounts for. */
  function OneCodeLength(digits: string): nat {
    if "0098" <= digits then 15 else if "98" <= digits then 13 else |digits|
  }

  /**
   * An accepted number is stored in the 09 form exactly when one country code accounts for its length; a
   * doubled code is kept.
   */
  lemma StoredPhoneForm(digits: string)
    requires AllDigits(digits) && IsIranMobile(NormalizeIranPhone(digits))
    ensures Canonical(NormalizeIranPhone(digits)) <==> |digits| <= OneCodeLength(digits)
  {
    var local := if "0098" <= digits then digits[4..] else if "98" <= digits then digits[2..] else digits;
    var phone := NormalizeIranPhone(digits);
    var again := if "0098" <= phone then phone[4..] else if "98" <= phone then phone[2..] else phone;
    assert |again| == 10 || |again| == 11;
    if |phone| == 11 {
      assert !("0098" <= phone) && !("98" <= phone);
    }
  }

  lemma DoubledCountryCode()
    ensures var digits := "98989123456789";
            IsIranMobile(NormalizeIranPhone(digits)) && NormalizeIranPhone(digits) == "989123456789"
            && !Canonical(NormalizeIranPhone(digits))
  {
    var digits := "98989123456789";
    assert digits[0] == '9' && digits[1] == '8';
    assert !("0098" <= digits) && "98" <= digits && digits[2..] == "989123456789";
    assert NormalizeIranPhone(digits) == "989123456789";
    var again := "989123456789";
    assert !("0098" <= again) && "98" <= again && again[2..] == "9123456789";
    assert NormalizeIranPhone(again) == "09123456789";
  }

  // Progress.

  /** Outside fixes, an answer that is accepted rather than talk, blank or an error. */
  predicate Accepted(test: NameTest, d: Draft, x: Answer) {
    var next := WithImages(d, x);
    && 0 <= Place(d.step) <= 7 && !d.fixing && !x.blank && !IsTalk(next, x) && Check(test, next, x).Some?
  }

  function CountAccepted(test: NameTest, d: Draft, answers: seq<Answer>): nat {
    if answers == [] then 0
    else
      var k := |answers| - 1;
      CountAccepted(test, d, answers[..k]) + (if Accepted(test, After(test, d, answers[..k]), answers[k]) then 1 else 0)
  }

  /** How many accepted answers lie behind a draft that started at the name. */
  function Behind(d: Draft): int {
    if d.step == Confirm then (if NeedsBody(d) then 8 else 7) else Place(d.step)
  }

  /** On its way to confirm: outside fixes, and at the body image only when it is needed. */
  predicate OnTheWay(d: Draft) {
    0 <= Place(d.step) && !d.fixing && (d.step == Body ==> NeedsBody(d))
  }

  lemma AdvanceProgress(d: Draft)
    requires OnTheWay(d) && d.step != Confirm
    ensures var t := Advance(d);
            && OnTheWay(t.draft)
            && Behind(t.draft) == Place(d.step) + 1
            && Place(t.draft.step) > Place(d.step)
            && (t.payload.Some? <==> t.draft.step == Confirm)
  {
    hide StepAfter;
    StepAfterIs(d);
  }

  /**
   * Before confirm, an accepted answer moves forward by one question, any other answer stays; confirm is
   * reached with a payload.
   */
  lemma TurnProgress(test: NameTest, d: Draft, x: Answer)
    requires OnTheWay(d) && d.step != Confirm
    ensures var t := AnswerIntake(test, d, x);
            && OnTheWay(t.draft)
            && Behind(t.draft) == Behind(d) + (if Accepted(test, d, x) then 1 else 0)
            && (Accepted(test, d, x) ==> Place(t.draft.step) > Place(d.step))
            && (!Accepted(test, d, x) ==> t.draft.step == d.step)
            && (t.payload.Some? <==> t.draft.step == Confirm)
  {
    hide FirstOf, Check, Advance, IsTalk, ConfirmTurn;
    var next := WithImages(d, x);
    if Check(test, next, x).Some? {
      CheckKeeps(test, next, x);
      AdvanceProgress(Check(test, next, x).value);
    }
  }

  lemma CheckKeeps(test: NameTest, d: Draft, x: Answer)
    requires Check(test, d, x).Some?
    ensures var e := Check(test, d, x).value;
            && e.step == d.step && e.fixing == d.fixing && 0 <= Place(d.step) <= 7
            && e.imageDesign == d.imageDesign && e.imageCurrent == d.imageCurrent
            && (d.step != Type ==> e.requestType == d.requestType)
            && (d.step == Design ==> d.requestType == Some(Consultation) || d.imageDesign)
            && (d.step == Body ==> d.imageCurrent)
  {
    hide NormalizeIranPhone, FirstOf;
  }

  predicate BeforeConfirm(test: NameTest, d: Draft, answers: seq<Answer>) {
    forall i :: 0 <= i < |answers| ==> After(test, d, answers[..i]).step != Confirm
  }

  /**
   * From any draft at the name, the payload comes with the seventh accepted answer, or the eighth for
   * covers and repairs, and not before.
   */
  lemma {:induction false} SevenOrEightAnswers(test: NameTest, d: Draft, answers: seq<Answer>)
    requires d.step == Name && !d.fixing && BeforeConfirm(test, d, answers) && answers != []
    ensures var e := After(test, d, answers);
            && CountAccepted(test, d, answers) == Behind(e)
            && (Emitted(test, d, answers).Some? <==> e.step == Confirm)
            && (e.step == Confirm ==> CountAccepted(test, d, answers) == if NeedsBody(e) then 8 else 7)
            && (e.step != Confirm ==> CountAccepted(test, d, answers) <= 7)
  {
    hide AnswerIntake, Accepted;
    var k := |answers| - 1;
    var c := After(test, d, answers[..k]);
    ShorterRun(test, d, answers, k);
    AnswersBehind(test, d, answers);
    AnswersBehind(test, d, answers[..k]);
    assert c.step != Confirm;
    TurnProgress(test, c, answers[k]);
  }

  lemma ShorterRun(test: NameTest, d: Draft, answers: seq<Answer>, k: nat)
    requires BeforeConfirm(test, d, answers) && k <= |answers|
    ensures BeforeConfirm(test, d, answers[..k])
  {
    forall i | 0 <= i < k
      ensures After(test, d, answers[..k][..i]).step != Confirm
    {
      assert answers[..k][..i] == answers[..i];
    }
  }

  lemma {:induction false} AnswersBehind(test: NameTest, d: Draft, answers: seq<Answer>)
    requires d.step == Name && !d.fixing && BeforeConfirm(test, d, answers)
    ensures OnTheWay(After(test, d, answers)) && CountAccepted(test, d, answers) == Behind(After(test, d, answers))
  {
    hide AnswerIntake, Accepted;
    if answers != [] {
      var k := |answers| - 1;
      ShorterRun(test, d, answers, k);
      AnswersBehind(test, d, answers[..k]);
      TurnProgress(test, After(test, d, answers[..k]), answers[k]);
    }
  }

  // Images.

  /** What the source asks for before a request is sent: a design image, and one of the body for covers and repairs. */
  predicate ImagesPresent(d: Draft) {
    (d.requestType == Some(Consultation) || d.imageDesign) && (NeedsBody(d) ==> d.imageCurrent)
  }

  /** The image questions already passed are answered. */
  predicate ImagesSoFar(d: Draft) {
    && (d.fixing || Place(d.step) > 6 ==> d.requestType == Some(Consultation) || d.imageDesign)
    && (d.fixing || Place(d.step) > 7 ==> (NeedsBody(d) ==> d.imageCurrent))
    && (d.fixing ==> d.step != Type)
  }

  /** The answer withdraws no image and does not reopen the type. */
  predicate Steady(d: Draft, x: Answer) {
    && (d.imageDesign ==> x.designImage != Some(false)) && (d.imageCurrent ==> x.currentImage != Some(false))
    && !(d.step == Confirm && x.pick == Some(PickFix(Type)))
  }

  lemma AdvanceKeepsImages(d: Draft)
    requires 0 <= Place(d.step) <= 7 && ImagesSoFar(d)
    requires d.step == Design ==> d.requestType == Some(Consultation) || d.imageDesign
    requires d.step == Body ==> d.imageCurrent
    ensures ImagesSoFar(Advance(d).draft) && (Advance(d).payload.Some? ==> ImagesPresent(Advance(d).draft))
  {
    hide StepAfter;
    StepAfterIs(d);
  }

  lemma ConfirmKeepsImages(d: Draft, x: Answer)
    requires d.step == Confirm && ImagesSoFar(d) && x.pick != Some(PickFix(Type))
    ensures var t := ConfirmTurn(d, x); ImagesSoFar(t.draft) && (t.payload.Some? ==> ImagesPresent(t.draft))
  {
  }

  lemma FlagsKeepImages(d: Draft, x: Answer)
    requires ImagesSoFar(d) && Steady(d, x)
    ensures ImagesSoFar(WithImages(d, x))
  {
  }

  /** What was seen so far holds for a draft with the answer filled in. */
  lemma FilledKeepsImages(test: NameTest, d: Draft, x: Answer)
    requires ImagesSoFar(d) && Check(test, d, x).Some?
    ensures ImagesSoFar(Check(test, d, x).value)
  {
    hide Check;
    CheckKeeps(test, d, x);
  }

  lemma TurnKeepsImages(test: NameTest, d: Draft, x: Answer)
    requires ImagesSoFar(d) && Steady(d, x)
    ensures var t := AnswerIntake(test, d, x);
            ImagesSoFar(t.draft) && (t.payload.Some? ==> ImagesPresent(t.draft))
  {
    hide FirstOf, Check, Advance, ConfirmTurn, IsTalk, ImagesPresent;
    var next := WithImages(d, x);
    FlagsKeepImages(d, x);
    if next.step == Confirm {
      ConfirmKeepsImages(next, x);
    } else if Check(test, next, x).Some? {
      CheckKeeps(test, next, x);
      FilledKeepsImages(test, next, x);
      AdvanceKeepsImages(Check(test, next, x).value);
    }
  }

  predicate SteadyRun(test: NameTest, d: Draft, answers: seq<Answer>) {
    forall i :: 0 <= i < |answers| ==> Steady(After(test, d, answers[..i]), answers[i])
  }

  /** On runs that never fix the type and never drop an image, every payload has its required images. */
  lemma {:induction false} SteadyRunsHaveImages(test: NameTest, d: Draft, answers: seq<Answer>)
    requires ImagesSoFar(d) && SteadyRun(test, d, answers)
    ensures ImagesSoFar(After(test, d, answers))
    ensures answers != [] && Emitted(test, d, answers).Some? ==> ImagesPresent(After(test, d, answers))
  {
    hide AnswerIntake, ImagesSoFar, ImagesPresent, Steady;
    if answers != [] {
      var k := |answers| - 1;
      forall i | 0 <= i < k
        ensures Steady(After(test, d, answers[..k][..i]), answers[..k][i])
      {
        assert answers[..k][..i] == answers[..i];
      }
      SteadyRunsHaveImages(test, d, answers[..k]);
      TurnKeepsImages(test, After(test, d, answers[..k]), answers[k]);
    }
  }

  /** In particular from both starts. */
  lemma SteadyStartsHaveImages(test: NameTest, day: string, booking: bool, answers: seq<Answer>)
    requires SteadyRun(test, if booking then StartBooking(day) else StartIntake(day), answers) && answers != []
    ensures var d := if booking then StartBooking(day) else StartIntake(day);
            Emitted(test, d, answers).Some? ==> ImagesPresent(After(test, d, answers))
  {
    hide After, Emitted, SteadyRun, ImagesPresent;
    SteadyRunsHaveImages(test, if booking then StartBooking(day) else StartIntake(day), answers);
  }

  lemma EveryTypeFound(t: Request)
    ensures FirstOf(TYPES, Some(t), {}) == Some(t)
  {
    hide FirstOf;
    var k :=
      match t
      case New => 0 case Coverup => 1 case Consultation => 2 case Repair => 3 case Continuation => 4 case Custom => 5;
    assert TYPES[k] == t;
  }

  /** Picking the type to fix leads to its question, with the images the answer sends along. */
  lemma FixTurn(test: NameTest, d: Draft, fix: Answer)
    requires d.step == Confirm && !fix.blank && !fix.yes && fix.pick == Some(PickFix(Type))
    ensures AnswerIntake(test, d, fix).draft == WithImages(d, fix).(step := Type, fixing := true)
  {
    assert ORDER[2] == Type;
  }

  /** The type an answer picks or mentions. */
  function TypeOf(x: Answer): Option<Request> {
    FirstOf(TYPES, PickedType(x), x.requests)
  }

  /** Not talk: what the assistant would answer instead. */
  predicate NoTalk(x: Answer) {
    x.talk ==> x.pick.Some? || x.sent
  }

  /** Naming a type in a fix leads back to confirm. */
  lemma ChoiceTurn(test: NameTest, d: Draft, choice: Answer)
    requires d.step == Type && d.fixing && !choice.blank && NoTalk(choice) && TypeOf(choice).Some?
    ensures AnswerIntake(test, d, choice).draft ==
              WithImages(d, choice).(requestType := TypeOf(choice), step := Confirm, fixing := false)
  {
    hide FirstOf;
  }

  lemma YesTurn(test: NameTest, d: Draft, yes: Answer)
    requires d.step == Confirm && !d.fixing && !yes.blank && NoTalk(yes) && yes.yes
    ensures AnswerIntake(test, d, yes) == Turn(WithImages(d, yes), Some(ToPayload(WithImages(d, yes))), false)
  {
  }

  /**
   * Changing the type from confirm and confirming sends the request whatever images the new type asks
   * for: they are there exactly when the flags, as last sent, cover the new type.
   */
  lemma TypeFixImages(test: NameTest, d: Draft, fix: Answer, choice: Answer, yes: Answer)
    requires d.step == Confirm && !d.fixing
    requires !fix.blank && !fix.yes && fix.pick == Some(PickFix(Type))
    requires !choice.blank && NoTalk(choice) && TypeOf(choice).Some?
    requires !yes.blank && NoTalk(yes) && yes.yes
    ensures var t := TypeOf(choice).value; var e := After(test, d, [fix, choice, yes]);
            var sent := WithImages(WithImages(WithImages(d, fix), choice), yes);
            && e == sent.(requestType := Some(t)) && Emitted(test, d, [fix, choice, yes]) == Some(ToPayload(e))
            && (ImagesPresent(e) <==>
                  (t == Consultation || sent.imageDesign) && (t == Coverup || t == Repair ==> sent.imageCurrent))
  {
    hide AnswerIntake;
    assert [fix, choice, yes][..2] == [fix, choice] && [fix, choice][..1] == [fix] && [fix][..0] == [];
    var d1 := WithImages(d, fix).(step := Type, fixing := true);
    var d2 := WithImages(d1, choice).(requestType := TypeOf(choice), step := Confirm, fixing := false);
    FixTurn(test, d, fix);
    ChoiceTurn(test, d1, choice);
    YesTurn(test, d2, yes);
    assert After(test, d, []) == d;
    assert After(test, d, [fix]) == d1;
    assert After(test, d, [fix, choice]) == d2;
  }

  /** An answer sent along with a design image and none of the body. */
  const Plain :=
    Answer(false, None, false, false, false, false, false, false, "", "", {}, {}, {}, {}, None, Some(true), Some(false))

  const Amini :=
    Draft(Confirm, false, "Sara Amini", "09120000000", Some(New), Some(Arm), Some(Left), Some((10.0, 15.0)),
          true, false, "")

  const COVER_RUN: seq<Answer> :=
    [Plain.(pick := Some(PickFix(Type))), Plain.(pick := Some(PickType(Coverup))), Plain.(yes := true)]

  /** A filled-in request with its design image, turned into a cover: it is sent without an image of the body. */
  lemma CoverWithoutBodyImage()
    ensures var test: NameTest := s => true;
            && Sound(test, Amini) && ImagesSoFar(Amini) && ImagesPresent(Amini)
            && Emitted(test, Amini, COVER_RUN).Some?
            && NeedsBody(After(test, Amini, COVER_RUN)) && !After(test, Amini, COVER_RUN).imageCurrent
  {
    hide After, Emitted, AnswerIntake;
    var test: NameTest := s => true;
    PlainPhone();
    EveryTypeFound(Coverup);
    TypeFixImages(test, Amini, COVER_RUN[0], COVER_RUN[1], COVER_RUN[2]);
    assert COVER_RUN == [COVER_RUN[0], COVER_RUN[1], COVER_RUN[2]];
  }

  lemma PlainPhone()
    ensures IsIranMobile("09120000000")
  {
    var p := "09120000000";
    assert p[0] == '0' && p[1] == '9' && p[2] == '1';
  }
}
