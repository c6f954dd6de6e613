/** What the intake stores: every field is read from the answers given to its own question. */
module IntakeAnswers {
  import opened Text
  import opened Intake

  /** What the dialogue knows of the customer. */
  datatype Said = Said(
    name: string, phone: string, requestType: Option<Request>, part: Option<BodyPart>, side: Option<BodySide>,
    size: Option<(real, real)>)

  function SaidOf(d: Draft): Said {
    Said(d.name, d.phone, d.requestType, d.part, d.side, d.size)
  }

  // What an answer says, in the order in which the options are listed.

  predicate SaysType(x: Answer, t: Request) {
    x.pick == Some(PickType(t)) || t in x.requests
  }

  predicate SaysPart(x: Answer, p: BodyPart) {
    x.pick == Some(PickPart(p)) || p in x.parts
  }

  predicate SaysSide(x: Answer, s: BodySide) {
    x.pick == Some(PickSide(s)) || s in x.sides
  }

  /** The earliest of the listed options that is said. */
  function Earliest<T(==)>(options: seq<T>, said: set<T>): Option<T> {
    if options == [] then None
    else if options[0] in said then Some(options[0])
    else Earliest(options[1..], said)
  }

  lemma {:induction false} EarliestIs<T>(options: seq<T>, said: set<T>)
    ensures match Earliest(options, said)
            case None => forall o :: o in options ==> o !in said
            case Some(o) => exists i :: 0 <= i < |options| && options[i] == o && o in said
                              && forall j :: 0 <= j < i ==> options[j] !in said
  {
    if options != [] {
      EarliestIs(options[1..], said);
      assert options == [options[0]] + options[1..];
      if options[0] !in said && Earliest(options[1..], said).Some? {
        var o := Earliest(options[1..], said).value;
        var i :| 0 <= i < |options| - 1 && options[1..][i] == o && forall j :: 0 <= j < i ==> options[1..][j] !in said;
        assert options[i + 1] == o;
        forall j | 0 <= j < i + 1
          ensures options[j] !in said
        {
          assert j > 0 ==> options[j] == options[1..][j - 1];
        }
      }
    }
  }

  lemma {:induction false} FirstIsEarliest<T>(options: seq<T>, picked: Option<T>, mentioned: set<T>, said: set<T>)
    requires forall o :: o in said <==> picked == Some(o) || o in mentioned
    ensures FirstOf(options, picked, mentioned) == Earliest(options, said)
  {
    if options != [] {
      FirstIsEarliest(options[1..], picked, mentioned, said);
    }
  }

  function SaidType(x: Answer): Option<Request> {
    Earliest([New, Coverup, Consultation, Repair, Continuation, Custom], set t | SaysType(x, t))
  }

  function SaidSide(x: Answer): Option<BodySide> {
    Earliest([Right, Left, Center], set s | SaysSide(x, s))
  }

  function SaidPart(x: Answer): Option<BodyPart> {
    Earliest([Forearm, Arm, Hand, Finger, Chest, Belly, Flank, Back, Neck, Head, Thigh, Shin, Knee, Wrist, Foot],
             set p | SaysPart(x, p))
  }

  /** The part a talking customer mentions first, in the order the hints are tried. */
  function HintedPart(x: Answer): Option<BodyPart> {
    Earliest([Neck, Forearm, Arm, Finger, Chest, Belly, Flank, Back, Knee, Shin, Thigh, Wrist, Foot, Hand, Head],
        x.hints)
  }

  /** What is remembered after an answer to a question; talk only ever tells a part that is not known yet. */
  function Remember(test: NameTest, m: Said, question: Step, x: Answer): Said {
    var phone := NormalizeIranPhone(x.digits);
    if x.blank || (question == Questions && x.doneAsking) then m
    else if question == Questions
         || (x.talk && x.pick.None? && !x.sent && !(question == Phone && IsIranMobile(phone)))
    then (if m.part.None? then m.(part := HintedPart(x)) else m)
    else
      match question
      case Name => if |x.name| >= 5 && test(x.name) then m.(name := x.name) else m
      case Phone => if IsIranMobile(phone) then m.(phone := phone) else m
      case Type => if SaidType(x).Some? then m.(requestType := SaidType(x)) else m
      case Part => if (m.part.Some? && x.same) || SaidPart(x).None? then m else m.(part := SaidPart(x))
      case Side => if SaidSide(x).Some? then m.(side := SaidSide(x)) else m
      case Size =>
        (match x.numbers
         case None => m
         case Some((w, h)) => if 1.0 <= w <= 60.0 && 1.0 <= h <= 60.0 then m.(size := Some((w, h))) else m)
      case _ => m
  }

  /** What is remembered after a run, each answer taken at the question that was open. */
  function Remembered(test: NameTest, d: Draft, answers: seq<Answer>): Said {
    if answers == [] then SaidOf(d)
    else
      var front := answers[..|answers| - 1];
      Remember(test, Remembered(test, d, front), After(test, d, front).step, answers[|answers| - 1])
  }

  lemma OptionsFound(x: Answer)
    ensures FirstOf(TYPES, PickedType(x), x.requests) == SaidType(x)
    ensures FirstOf(PARTS, PickedPart(x), x.parts) == SaidPart(x)
    ensures FirstOf(SIDES, PickedSide(x), x.sides) == SaidSide(x)
    ensures MentionedPart(x) == HintedPart(x)
  {
    hide FirstOf, Earliest;
    FirstIsEarliest(TYPES, PickedType(x), x.requests, set t | SaysType(x, t));
    FirstIsEarliest(PARTS, PickedPart(x), x.parts, set p | SaysPart(x, p));
    FirstIsEarliest(SIDES, PickedSide(x), x.sides, set s | SaysSide(x, s));
    FirstIsEarliest(HINTS, None, x.hints, x.hints);
  }

  ghost predicate Stored(test: NameTest, d: Draft, x: Answer) {
    match Check(test, d, x)
    case None => Remember(test, SaidOf(d), d.step, x) == SaidOf(d)
    case Some(e) => SaidOf(e) == Remember(test, SaidOf(d), d.step, x) && e.preferredDay == d.preferredDay
  }

  lemma ListedStored(test: NameTest, d: Draft, x: Answer)
    requires !x.blank && !IsTalk(d, x) && d.step in [Type, Part, Side]
    ensures Stored(test, d, x)
  {
    hide FirstOf, NormalizeIranPhone, IsIranMobile, SaidType, SaidPart, SaidSide, HintedPart, ParseSize;
    OptionsFound(x);
  }

  lemma TypedStored(test: NameTest, d: Draft, x: Answer)
    requires !x.blank && !IsTalk(d, x) && d.step !in [Type, Part, Side]
    ensures Stored(test, d, x)
  {
    hide FirstOf, NormalizeIranPhone, IsIranMobile, SaidType, SaidPart, SaidSide, HintedPart;
  }

  lemma CheckRemembers(test: NameTest, d: Draft, x: Answer)
    requires !x.blank && !IsTalk(d, x)
    ensures match Check(test, d, x)
            case None => Remember(test, SaidOf(d), d.step, x) == SaidOf(d)
            case Some(e) => SaidOf(e) == Remember(test, SaidOf(d), d.step, x) && e.preferredDay == d.preferredDay
  {
    hide Check, Remember;
    if d.step in [Type, Part, Side] {
      ListedStored(test, d, x);
    } else {
      TypedStored(test, d, x);
    }
  }

  lemma TalkRemembers(test: NameTest, d: Draft, x: Answer)
    requires !x.blank && IsTalk(d, x) && !(d.step == Questions && x.doneAsking)
    ensures Remember(test, SaidOf(d), d.step, x) ==
              if MentionedPart(x).Some? && d.part.None? then SaidOf(d).(part := MentionedPart(x)) else SaidOf(d)
  {
    hide FirstOf, NormalizeIranPhone, IsIranMobile, SaidType, SaidPart, SaidSide, HintedPart, MentionedPart;
    OptionsFound(x);
  }

  /** The payload says what the draft says. */
  predicate Honest(t: Turn) {
    t.payload.Some? ==>
      var m := SaidOf(t.draft);
      t.payload.value == Payload(m.name, m.phone, m.requestType, m.part, m.side, m.size)
  }

  lemma AdvanceKeepsSaid(d: Draft)
    ensures var t := Advance(d); SaidOf(t.draft) == SaidOf(d) && t.draft.preferredDay == d.preferredDay && Honest(t)
  {
    hide StepAfter;
  }

  lemma ConfirmKeepsSaid(test: NameTest, d: Draft, x: Answer)
    requires d.step == Confirm
    ensures var t := ConfirmTurn(d, x);
            SaidOf(t.draft) == SaidOf(d) && t.draft.preferredDay == d.preferredDay && Honest(t)
  {
  }

  lemma ConfirmAsksNothing(test: NameTest, d: Draft, x: Answer)
    requires d.step == Confirm && !IsTalk(d, x)
    ensures Remember(test, SaidOf(d), d.step, x) == SaidOf(d)
  {
    hide FirstOf, NormalizeIranPhone, IsIranMobile, HintedPart;
  }

  /** An answer changes the field of the question it answers, or a part first heard in talk, and nothing else. */
  lemma TurnRemembers(test: NameTest, d: Draft, x: Answer)
    ensures var t := AnswerIntake(test, d, x);
            && SaidOf(t.draft) == Remember(test, SaidOf(d), d.step, x)
            && t.draft.preferredDay == d.preferredDay && Honest(t)
  {
    hide Remember, Advance, ConfirmTurn, Check, IsTalk, MentionedPart, FirstOf;
    var next := WithImages(d, x);
    if x.blank || (next.step == Questions && x.doneAsking) {
      Unmoved(test, next, x);
    } else if IsTalk(next, x) {
      TalkRemembers(test, next, x);
    } else if next.step == Confirm {
      ConfirmKeepsSaid(test, next, x);
      ConfirmAsksNothing(test, next, x);
    } else {
      CheckRemembers(test, next, x);
      if Check(test, next, x).Some? {
        AdvanceKeepsSaid(Check(test, next, x).value);
      }
    }
  }

  lemma Unmoved(test: NameTest, d: Draft, x: Answer)
    requires x.blank || (d.step == Questions && x.doneAsking)
    ensures Remember(test, SaidOf(d), d.step, x) == SaidOf(d)
  {
    hide NormalizeIranPhone, IsIranMobile;
  }

  /**
   * On every run, fixes and talk included, each field of the draft, and so of every payload sent, is what
   * the last accepted answer to its own question says.
   */
  lemma {:induction false} RunRemembers(test: NameTest, d: Draft, answers: seq<Answer>)
    ensures SaidOf(After(test, d, answers)) == Remembered(test, d, answers)
    ensures answers != [] && Emitted(test, d, answers).Some? ==>
              var m := Remembered(test, d, answers);
              Emitted(test, d, answers).value == Payload(m.name, m.phone, m.requestType, m.part, m.side, m.size)
  {
    hide AnswerIntake, Remember;
    if answers != [] {
      var front := answers[..|answers| - 1];
      RunRemembers(test, d, front);
      TurnRemembers(test, After(test, d, front), answers[|answers| - 1]);
    }
  }

  // Where an answer leads.

  /** The question after the one at `step`: a cover and a repair also need an image of the body. */
  function Following(step: Step, body: bool): Step {
    match step
    case Name => Phone case Phone => Type case Type => Part case Part => Side case Side => Size
    case Size => Design case Design => (if body then Body else Confirm) case _ => Confirm
  }

  /** An accepted answer outside fixes leads to the next question; one in a fix leads back to confirm. */
  lemma AcceptedLeads(test: NameTest, d: Draft, x: Answer)
    requires 0 <= Place(d.step) <= 7 && !x.blank && !IsTalk(WithImages(d, x), x)
    requires Check(test, WithImages(d, x), x).Some?
    ensures var t := AnswerIntake(test, d, x).draft;
            && t.step == (if d.fixing then Confirm
                          else Following(d.step, t.requestType == Some(Coverup) || t.requestType == Some(Repair)))
            && (t.step == Confirm ==> !t.fixing)
  {
    hide FirstOf, NormalizeIranPhone, IsIranMobile, Check, StepAfter, IsTalk;
    CheckKeeps(test, WithImages(d, x), x);
    StepAfterIs(Check(test, WithImages(d, x), x).value);
  }

  /** When an answer is accepted: it says something of what is asked, or the image asked for is there. */
  lemma AcceptedExactly(test: NameTest, d: Draft, x: Answer)
    ensures Check(test, d, x).Some? <==>
              match d.step
              case Name => |x.name| >= 5 && test(x.name)
              case Phone => IsIranMobile(NormalizeIranPhone(x.digits))
              case Type => SaidType(x).Some?
              case Part => (d.part.Some? && x.same) || SaidPart(x).Some?
              case Side => SaidSide(x).Some?
              case Size => x.numbers.Some? && 1.0 <= x.numbers.value.0 <= 60.0 && 1.0 <= x.numbers.value.1 <= 60.0
              case Design => d.imageDesign || (x.skip && d.requestType == Some(Consultation))
              case Body => d.imageCurrent
              case _ => false
  {
    hide FirstOf, NormalizeIranPhone, IsIranMobile, SaidType, SaidPart, SaidSide;
    OptionsFound(x);
  }

  /** The customer picks a question to fix that the draft has. */
  predicate PicksFix(d: Draft, x: Answer) {
    match x.pick
    case Some(PickFix(step)) =>
      && step in {Name, Phone, Type, Part, Side, Size, Design, Body}
      && (step == Body ==> d.requestType in {Some(Coverup), Some(Repair)})
    case _ => false
  }

  /**
   * At the end: yes sends, a fix reopens its question, the body image only where one is needed, and
   * nothing else moves.
   */
  lemma ConfirmLeads(test: NameTest, d: Draft, x: Answer)
    requires d.step == Confirm && !x.blank && !(x.talk && x.pick.None? && !x.sent)
    ensures var t := AnswerIntake(test, d, x);
            && (t.payload.Some? <==> x.yes)
            && (x.yes ==> t.draft.step == Confirm && !t.draft.fixing)
            && (!x.yes && PicksFix(d, x) ==> t.draft.step == x.pick.value.step && t.draft.fixing)
            && (!x.yes && !PicksFix(d, x) ==> t.draft == WithImages(d, x))
  {
    assert forall s: Step :: s != Questions ==> s in ORDER by {
      EveryStepListed();
    }
  }

  lemma EveryStepListed()
    ensures forall s: Step :: s != Questions ==> s in ORDER
  {
    forall s: Step | s != Questions
      ensures s in ORDER
    {
      assert ORDER[Place(s)] == s;
    }
  }

  /** Before the form: the customer asks until done, and every question goes to the assistant. */
  lemma QuestionsLead(test: NameTest, d: Draft, x: Answer)
    requires d.step == Questions && !x.blank
    ensures var t := AnswerIntake(test, d, x);
            && t.payload.None? && t.draft.step == (if x.doneAsking then Name else Questions)
            && (t.needsModel <==> !x.doneAsking)
  {
    hide FirstOf;
  }

  /** The assistant is asked for exactly the questions of the customer. */
  lemma AssistantAsked(test: NameTest, d: Draft, x: Answer)
    ensures AnswerIntake(test, d, x).needsModel <==>
              && !x.blank
              && if d.step == Questions then !x.doneAsking
                 else
                   && x.talk && x.pick.None? && !x.sent
                   && (d.step == Phone ==> !IsIranMobile(NormalizeIranPhone(x.digits)))
  {
    hide FirstOf, NormalizeIranPhone, IsIranMobile, Check, ConfirmTurn, MentionedPart;
    var next := WithImages(d, x);
    NothingAsked(next, x);
    if Check(test, next, x).Some? {
      NothingAsked(Check(test, next, x).value, x);
    }
  }

  lemma NothingAsked(d: Draft, x: Answer)
    ensures !Advance(d).needsModel && !ConfirmTurn(d, x).needsModel
  {
  }

  /** The digits a customer types are the digits stored, country code aside: the last ten are the same. */
  lemma PhoneKeepsDigits(digits: string)
    requires IsIranMobile(NormalizeIranPhone(digits))
    ensures var phone := NormalizeIranPhone(digits);
            && |digits| >= 10 && |phone| >= 10
            && phone[|phone| - 10..] == digits[|digits| - 10..]
            && (|phone| == 11 && phone[0] == '0' ==> phone == "0" + digits[|digits| - 10..])
  {
    var phone := NormalizeIranPhone(digits);
    StripKeeps(digits);
    StripKeeps(phone);
  }

  lemma StripKeeps(digits: string)
    ensures var phone := NormalizeIranPhone(digits);
            && (|phone| >= 10 ==> |digits| >= |phone| - 1)
            && (|phone| >= 10 && |digits| >= 10 ==> phone[|phone| - 10..] == digits[|digits| - 10..])
            && (|phone| == 11 ==> |digits| >= 10)
  {
    var rest := if "0098" <= digits then digits[4..] else if "98" <= digits then digits[2..] else digits;
    if |rest| >= 10 {
      assert rest[|rest| - 10..] == digits[|digits| - 10..];
    }
  }

  /** Every answer carries the latest word on the images, and only that changes them. */
  lemma ImagesAsSent(test: NameTest, d: Draft, x: Answer)
    ensures var e := AnswerIntake(test, d, x).draft;
            && e.imageDesign == (match x.designImage case Some(there) => there case None => d.imageDesign)
            && e.imageCurrent == (match x.currentImage case Some(there) => there case None => d.imageCurrent)
  {
    hide FirstOf, NormalizeIranPhone, IsIranMobile, Check, StepAfter, IsTalk, MentionedPart;
    if Check(test, WithImages(d, x), x).Some? {
      CheckKeeps(test, WithImages(d, x), x);
    }
  }

  /** Both chats start knowing nothing but the day asked for: one with the customer's questions, one with the name. */
  lemma StartsBlank(day: string)
    ensures StartIntake(day) == Draft(Questions, false, "", "", None, None, None, None, false, false, day)
    ensures StartBooking(day) == Draft(Name, false, "", "", None, None, None, None, false, false, day)
  {
  }

  /** The digits after a country code, if there is one. */
  function LocalDigits(digits: string): string {
    if "0098" <= digits then digits[4..] else if "98" <= digits then digits[2..] else digits
  }

  /** A mobile number: after the country code ten digits from a 9 on, with or without a zero in front. */
  lemma MobileExactly(digits: string)
    requires AllDigits(digits)
    ensures var rest := LocalDigits(digits);
            IsIranMobile(digits) <==>
              (|rest| == 10 && rest[0] == '9') || (|rest| == 11 && rest[0] == '0' && rest[1] == '9')
    ensures var rest := LocalDigits(digits);
            NormalizeIranPhone(digits) == if |rest| == 10 && rest[0] == '9' then "0" + rest else rest
  {
    var rest := LocalDigits(digits);
    if |rest| == 10 {
      assert "9" <= rest <==> rest[0] == '9';
    } else if |rest| == 11 {
      assert "09" <= rest <==> rest[0] == '0' && rest[1] == '9';
    }
  }
}
