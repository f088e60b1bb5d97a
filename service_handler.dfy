/**
 * The hand-unrolled TripPlanner. It walks through the same questions as
 * the table-driven planner, but with one branch per step and service, a
 * step counter that runs up to 5 (6 for the mystery guide), the service's
 * display name stored under "service", and no validation: once the last
 * answer is in, the formatted sentence goes straight to the language model,
 * and every later message gets the model's answer to the same sentence.
 */
module ServiceHandler {
  import opened Text
  import opened Dialogue
  import TripPlan

  datatype HandlerState = HandlerState(step: int, selectedService: string, userDetails: map<string, string>)

  const INITIAL: HandlerState := HandlerState(0, "", map[])

  /** `["Restaurant Finder", "Tourist Attractions", "Mystery Planning Guide"][int(user_input) - 1]` */
  function ServiceName(svc: string): (name: string)
    requires IsServiceChoice(svc)
    ensures svc == "1" ==> name == "Restaurant Finder"
    ensures svc == "2" ==> name == "Tourist Attractions"
    ensures svc == "3" ==> name == "Mystery Planning Guide"
  {
    var names := ["Restaurant Finder", "Tourist Attractions", "Mystery Planning Guide"];
    assert DigitsValue(svc) == DigitValue(svc[0]) by {
      assert svc[..0] == [];
    }
    names[DigitsValue(svc) - 1]
  }

  /** The step at which every answer is in: 5 for services 1 and 2, 6 for
      the mystery guide. */
  function FinalStep(svc: string): int
    requires IsServiceChoice(svc)
  {
    2 + |Fields(svc)|
  }

  /** The states reachable from INITIAL: from step 2 on, the service name
      and the answers so far, stored under the first step - 2 fields. */
  predicate ValidState(s: HandlerState) {
    if s.step < 2 then
      s.step >= 0 && s.selectedService == "" && s.userDetails == map[]
    else
      && IsServiceChoice(s.selectedService)
      && s.step <= FinalStep(s.selectedService)
      && s.userDetails.Keys == {"service"} + FirstFields(s.selectedService, s.step - 2)
      && s.userDetails["service"] == ServiceName(s.selectedService)
  }

  /** Every field of the service is stored once the final step is reached. */
  lemma FinalHasAllFields(s: HandlerState)
    requires ValidState(s) && s.step >= 2 && s.step == FinalStep(s.selectedService)
    ensures HasAllFields(s.selectedService, s.userDetails)
  {
    forall i | 0 <= i < |Fields(s.selectedService)|
      ensures Fields(s.selectedService)[i] in s.userDetails
    {
      FirstFieldsMembers(s.selectedService, s.step - 2, i);
    }
  }

  /** Stores one answer under key and moves to the next step. */
  function Store(s: HandlerState, key: string, input: string): HandlerState {
    s.(step := s.step + 1, userDetails := s.userDetails[key := input])
  }

  /** Storing the answer under the field of the current step keeps the state
      reachable. */
  lemma StoreKeepsValid(s: HandlerState, input: string)
    requires ValidState(s) && 2 <= s.step < FinalStep(s.selectedService)
    ensures ValidState(Store(s, Fields(s.selectedService)[s.step - 2], input))
  {
    FirstFieldsStep(s.selectedService, s.step - 2);
  }

  /** The last block of process_message, at step 5 or 6: the model's answer
      to the formatted sentence. */
  function FinalResponse(s: HandlerState, answer: string -> string): (reply: Reply)
    requires ValidState(s) && s.step >= 2 && s.step == FinalStep(s.selectedService)
    ensures HasAllFields(s.selectedService, s.userDetails)
    ensures reply == Says(answer(FormatUserInput(s.selectedService, s.userDetails)))
  {
    FinalHasAllFields(s);
    Says(answer(FormatUserInput(s.selectedService, s.userDetails)))
  }

  /** What the hand-unrolled steps promise: the answer goes under the
      field the table lists for this step, and the reply is that table's
      next question, or the model's answer once the last field is in. */
  predicate StoresNextField(s: HandlerState, input: string, answer: string -> string, o: Outcome<HandlerState>)
    requires ValidState(s) && 2 <= s.step < FinalStep(s.selectedService)
  {
    var svc := s.selectedService;
    && o.next == Store(s, Fields(svc)[s.step - 2], input)
    && ValidState(o.next)
    && (o.next.step < FinalStep(svc) ==> o.reply == Says(FieldPrompt(Fields(svc)[s.step - 1])))
    && (o.next.step == FinalStep(svc) ==>
          HasAllFields(svc, o.next.userDetails)
          && o.reply == Says(answer(FormatUserInput(svc, o.next.userDetails))))
  }

  /** Step 2: the location (the city for the mystery guide). */
  function AskFirst(s: HandlerState, input: string, answer: string -> string): (o: Outcome<HandlerState>)
    requires ValidState(s) && s.step == 2
    ensures StoresNextField(s, input, answer, o)
  {
    var svc := s.selectedService;
    StoreKeepsValid(s, input);
    if svc == "1" then Outcome(Store(s, "location", input), Says("Preferred cuisine?"))
    else if svc == "2" then Outcome(Store(s, "location", input), Says("Do you prefer monuments, parks, or viewpoints?"))
    else Outcome(Store(s, "city", input), Says("How many people are traveling?"))
  }

  /** Step 3: the cuisine, the preferences or the number of people. */
  function AskSecond(s: HandlerState, input: string, answer: string -> string): (o: Outcome<HandlerState>)
    requires ValidState(s) && s.step == 3
    ensures StoresNextField(s, input, answer, o)
  {
    var svc := s.selectedService;
    StoreKeepsValid(s, input);
    if svc == "1" then Outcome(Store(s, "cuisine", input), Says("Enter your budget:"))
    else if svc == "2" then Outcome(Store(s, "preferences", input), Says("Enter your budget:"))
    else Outcome(Store(s, "people", input), Says("Enter your budget:"))
  }

  /** Step 4: the budget. Services 1 and 2 are then complete and fall
      through to the final block; the mystery guide asks for the days. */
  function AskThird(s: HandlerState, input: string, answer: string -> string): (o: Outcome<HandlerState>)
    requires ValidState(s) && s.step == 4
    ensures StoresNextField(s, input, answer, o)
  {
    var svc := s.selectedService;
    StoreKeepsValid(s, input);
    var next := Store(s, "budget", input);
    if svc == "3" then Outcome(next, Says("How many days will you travel?"))
    else Outcome(next, FinalResponse(next, answer))
  }

  /** Step 5 of the mystery guide: the days, then the final block. */
  function AskFourth(s: HandlerState, input: string, answer: string -> string): (o: Outcome<HandlerState>)
    requires ValidState(s) && s.step == 5 && s.selectedService == "3"
    ensures StoresNextField(s, input, answer, o)
  {
    StoreKeepsValid(s, input);
    var next := Store(s, "days", input);
    Outcome(next, FinalResponse(next, answer))
  }

  /** Steps 2 and later of process_message. */
  function Collect(s: HandlerState, input: string, answer: string -> string): (o: Outcome<HandlerState>)
    requires ValidState(s) && s.step >= 2
    ensures s.step < FinalStep(s.selectedService) ==> StoresNextField(s, input, answer, o)
    ensures s.step == FinalStep(s.selectedService) ==>
      && HasAllFields(s.selectedService, s.userDetails)
      && o == Outcome(s, Says(answer(FormatUserInput(s.selectedService, s.userDetails))))
  {
    if s.step == 2 then AskFirst(s, input, answer)
    else if s.step == 3 then AskSecond(s, input, answer)
    else if s.step == 4 then AskThird(s, input, answer)
    else if s.step == 5 && s.selectedService == "3" then AskFourth(s, input, answer)
    else Outcome(s, FinalResponse(s, answer))
  }

  /** process_message as a function of the state before the message. */
  function Transition(s: HandlerState, input: string, answer: string -> string)
    : (o: Outcome<HandlerState>)
    requires ValidState(s)
    ensures ValidState(o.next)
    ensures s.step <= o.next.step <= s.step + 1
    ensures s.step == 0 ==>
      if IsHelpRequest(input) then o == Outcome(s.(step := 1), Says(MENU))
      else o == Outcome(s, NoReply)
    ensures s.step == 1 ==>
      if IsServiceChoice(input) then
        o == Outcome(HandlerState(2, input, map["service" := ServiceName(input)]), Says(InitialPrompt(input)))
      else o == Outcome(s, Says(INVALID_CHOICE))
  {
    if s.step == 0 then
      if IsHelpRequest(input) then Outcome(s.(step := 1), Says(MENU))
      else Outcome(s, NoReply)
    else if s.step == 1 then
      if IsServiceChoice(input) then
        var details := s.userDetails["service" := ServiceName(input)];
        assert details.Keys == {"service"} + FirstFields(input, 0);
        Outcome(HandlerState(2, input, details), Says(InitialPrompt(input)))
      else Outcome(s, Says(INVALID_CHOICE))
    else
      var o := Collect(s, input, answer);
      assert ValidState(o.next);
      o
  }

  /** The hand-unrolled TripPlanner object: process_message updates the
      three fields in place, one branch per step and service. */
  class TripPlanner {
    var userDetails: map<string, string>
    var step: int
    var selectedService: string

    function State(): HandlerState
      reads this
    {
      HandlerState(step, selectedService, userDetails)
    }

    predicate Valid()
      reads this
    {
      ValidState(State())
    }

    constructor()
      ensures State() == INITIAL && Valid()
    {
      userDetails := map[];
      step := 0;
      selectedService := "";
    }

    /** Stores the answer to the current step's question under key. */
    method StoreAnswer(key: string, userInput: string)
      requires Valid() && 2 <= step < FinalStep(selectedService)
      requires key == Fields(selectedService)[step - 2]
      modifies this
      ensures Valid()
      ensures State() == Store(old(State()), key, userInput)
    {
      StoreKeepsValid(State(), userInput);
      userDetails := userDetails[key := userInput];
      step := step + 1;
    }

    method ProcessMessage(userInput: string, answer: string -> string) returns (reply: Reply)
      requires Valid()
      modifies this
      ensures Valid()
      ensures Outcome(State(), reply) == Transition(old(State()), userInput, answer)
    {
      if step == 0 {
        if IsHelpRequest(userInput) {
          step := 1;
          return Says(MENU);
        }
      } else if step == 1 {
        if IsServiceChoice(userInput) {
          selectedService := userInput;
          userDetails := userDetails["service" := ServiceName(userInput)];
          step := 2;
          return Says(InitialPrompt(userInput));
        }
        return Says(INVALID_CHOICE);
      } else {
        reply := CollectAnswer(userInput, answer);
        return;
      }
      return NoReply;
    }

    /** Steps 2 and later of process_message: the branches that store an
        answer, then the final block. */
    method CollectAnswer(userInput: string, answer: string -> string) returns (reply: Reply)
      requires Valid() && step >= 2
      modifies this
      ensures Valid()
      ensures Outcome(State(), reply) == Collect(old(State()), userInput, answer)
    {
      if step == 2 {
        reply := TakeFirstAnswer(userInput, answer);
      } else if step == 3 {
        reply := TakeSecondAnswer(userInput, answer);
      } else if step == 4 {
        reply := TakeThirdAnswer(userInput, answer);
      } else if step == 5 && selectedService == "3" {
        reply := TakeFourthAnswer(userInput, answer);
      } else {
        reply := FinalAnswer(answer);
      }
    }

    method TakeFirstAnswer(userInput: string, answer: string -> string) returns (reply: Reply)
      requires Valid() && step == 2
      modifies this
      ensures Valid()
      ensures Outcome(State(), reply) == AskFirst(old(State()), userInput, answer)
    {
      if selectedService == "1" {
        StoreAnswer("location", userInput);
        reply := Says("Preferred cuisine?");
      } else if selectedService == "2" {
        StoreAnswer("location", userInput);
        reply := Says("Do you prefer monuments, parks, or viewpoints?");
      } else {
        StoreAnswer("city", userInput);
        reply := Says("How many people are traveling?");
      }
    }

    method TakeSecondAnswer(userInput: string, answer: string -> string) returns (reply: Reply)
      requires Valid() && step == 3
      modifies this
      ensures Valid()
      ensures Outcome(State(), reply) == AskSecond(old(State()), userInput, answer)
    {
      if selectedService == "1" {
        StoreAnswer("cuisine", userInput);
      } else if selectedService == "2" {
        StoreAnswer("preferences", userInput);
      } else {
        StoreAnswer("people", userInput);
      }
      reply := Says("Enter your budget:");
    }

    method TakeThirdAnswer(userInput: string, answer: string -> string) returns (reply: Reply)
      requires Valid() && step == 4
      modifies this
      ensures Valid()
      ensures Outcome(State(), reply) == AskThird(old(State()), userInput, answer)
    {
      StoreAnswer("budget", userInput);
      if selectedService == "3" {
        reply := Says("How many days will you travel?");
      } else {
        reply := FinalAnswer(answer);
      }
    }

    method TakeFourthAnswer(userInput: string, answer: string -> string) returns (reply: Reply)
      requires Valid() && step == 5 && selectedService == "3"
      modifies this
      ensures Valid()
      ensures Outcome(State(), reply) == AskFourth(old(State()), userInput, answer)
    {
      StoreAnswer("days", userInput);
      reply := FinalAnswer(answer);
    }

    /** The final block: the model's answer to the formatted sentence. */
    method FinalAnswer(answer: string -> string) returns (reply: Reply)
      requires Valid() && step >= 2 && step == FinalStep(selectedService)
      ensures reply == FinalResponse(State(), answer)
    {
      FinalHasAllFields(State());
      reply := Says(answer(FormatUserInput(selectedService, userDetails)));
    }
  }

  // ---------------------------------------------------------------------
  // The two planners compared
  // ---------------------------------------------------------------------

  /** A table-driven planner state and a hand-unrolled one that hold the
      same conversation: the same step before the choice, and afterwards
      the same service, the same answers (plus the service name) and a step
      counter two ahead of the number of answers. */
  predicate Corresponds(p: TripPlan.PlannerState, h: HandlerState) {
    if p.step < 2 then
      h == HandlerState(p.step, p.selectedService, p.userDetails)
    else
      && IsServiceChoice(p.selectedService)
      && h.step == 2 + |p.userDetails|
      && h.selectedService == p.selectedService
      && h.userDetails == p.userDetails["service" := ServiceName(p.selectedService)]
  }

  /** Before the service is chosen both planners are the same machine. */
  lemma AgreeBeforeChoice(p: TripPlan.PlannerState, h: HandlerState, input: string, answer: string -> string)
    requires TripPlan.ValidState(p) && ValidState(h) && Corresponds(p, h) && p.step < 2
    ensures var tp := TripPlan.Transition(p, input, answer);
      var sh := Transition(h, input, answer);
      Corresponds(tp.next, sh.next) && tp.reply == sh.reply
  {
    if p.step == 1 && IsServiceChoice(input) {
      assert map[]["service" := ServiceName(input)] == map["service" := ServiceName(input)];
    }
  }

  /** Solver hint: two updates of a map under different keys can be made in
      either order. */
  lemma UpdatesCommute(m: map<string, string>, k1: string, v1: string, k2: string, v2: string)
    requires k1 != k2
    ensures m[k1 := v1][k2 := v2] == m[k2 := v2][k1 := v1]
  {
  }

  /** While answers are collected both planners store the message under
      the same field and stay in correspondence. */
  lemma CollectCorresponds(p: TripPlan.PlannerState, h: HandlerState, input: string, answer: string -> string)
    requires TripPlan.ValidState(p) && ValidState(h) && Corresponds(p, h)
    requires p.step == 2 && !TripPlan.Complete(p)
    ensures Corresponds(TripPlan.Collect(p, input, answer).next, Collect(h, input, answer).next)
  {
    var svc := p.selectedService;
    var field := Fields(svc)[|p.userDetails|];
    var tp := TripPlan.Collect(p, input, answer);
    var sh := Collect(h, input, answer);
    assert StoresNextField(h, input, answer, sh);
    assert sh.next.userDetails == h.userDetails[field := input];
    assert tp.next.userDetails == p.userDetails[field := input];
    UpdatesCommute(p.userDetails, "service", ServiceName(svc), field, input);
  }

  /** While answers are collected both planners ask the same next
      question; after the last answer the table-driven planner replies as
      the model does unless validation finds an error. */
  lemma CollectReplies(p: TripPlan.PlannerState, h: HandlerState, input: string, answer: string -> string)
    requires TripPlan.ValidState(p) && ValidState(h) && Corresponds(p, h)
    requires p.step == 2 && !TripPlan.Complete(p)
    ensures var tp := TripPlan.Collect(p, input, answer);
      tp.reply != Collect(h, input, answer).reply ==>
        TripPlan.Complete(tp.next)
        && TripPlan.ServiceErrors(p.selectedService, tp.next.userDetails) != []
  {
    var svc := p.selectedService;
    var n := |p.userDetails|;
    var tp := TripPlan.Collect(p, input, answer);
    var sh := Collect(h, input, answer);
    assert StoresNextField(h, input, answer, sh);
    CollectCorresponds(p, h, input, answer);
    if n + 1 == |Fields(svc)| {
      var details := tp.next.userDetails;
      assert sh.next.userDetails == details["service" := ServiceName(svc)];
      FormatIgnoresOtherKey(svc, details, "service", ServiceName(svc));
      TripPlan.AnswersWhenValid(svc, details, answer);
    }
  }

  /** Until the table-driven planner has every answer, both planners give
      the same reply to every message and stay in step, except for one
      reply: the one to the last answer, when validation fails. The
      hand-unrolled planner then sends the unchecked answers to the model
      where the other returns the errors. */
  lemma {:induction false} PlannersAgree(
    p: TripPlan.PlannerState, h: HandlerState, input: string, answer: string -> string)
    requires TripPlan.ValidState(p) && ValidState(h) && Corresponds(p, h)
    requires !TripPlan.Complete(p)
    ensures var tp := TripPlan.Transition(p, input, answer);
      var sh := Transition(h, input, answer);
      && Corresponds(tp.next, sh.next)
      && (tp.reply != sh.reply ==>
            TripPlan.Complete(tp.next)
            && TripPlan.ServiceErrors(p.selectedService, tp.next.userDetails) != [])
  {
    if p.step < 2 {
      AgreeBeforeChoice(p, h, input, answer);
    } else {
      CollectCorresponds(p, h, input, answer);
      CollectReplies(p, h, input, answer);
    }
  }
}
