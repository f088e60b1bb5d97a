/**
 * The table-driven TripPlanner. A conversation has three stages: waiting
 * for a help request (step 0), waiting for the service choice (step 1), and
 * collecting the service's fields one message at a time (step 2). Once the
 * last field is in, the answers are validated and either the error messages
 * or the language model's answer are returned. A further message finds
 * every field filled and raises IndexError.
 *
 * The pure Transition function is the specification; the TripPlanner class
 * updates its fields in place and is proved to follow it.
 */
module TripPlan {
  import opened Text
  import opened ValidateUserInput
  import opened Dialogue

  datatype PlannerState = PlannerState(step: int, selectedService: string, userDetails: map<string, string>)

  /** What `TripPlanner()` starts with. */
  const INITIAL: PlannerState := PlannerState(0, "", map[])

  /** The states a planner can reach from INITIAL: before the choice nothing
      is stored; afterwards the answers given so far sit under the first
      fields of the chosen service. */
  predicate ValidState(s: PlannerState) {
    if s.step < 2 then
      s.step >= 0 && s.selectedService == "" && s.userDetails == map[]
    else
      && s.step == 2
      && IsServiceChoice(s.selectedService)
      && |s.userDetails| <= |Fields(s.selectedService)|
      && s.userDetails.Keys == FirstFields(s.selectedService, |s.userDetails|)
  }

  /** Every field of the service has been answered. */
  predicate Complete(s: PlannerState)
    requires ValidState(s)
  {
    s.step == 2 && |s.userDetails| == |Fields(s.selectedService)|
  }

  /** The errors the service's validator reports for the collected answers
      (empty when it succeeds); ValidatorErrors ties it to the validators. */
  function ServiceErrors(svc: string, details: map<string, string>): seq<FieldError>
    requires IsServiceChoice(svc)
  {
    if svc == "1" then RestaurantErrors(details)
    else if svc == "2" then HistoricalErrors(details)
    else MysteryErrors(details)
  }

  /** `validation_functions[svc](details)` fails exactly when ServiceErrors
      is non-empty, and then with those errors. */
  lemma ValidatorErrors(svc: string, details: map<string, string>)
    requires IsServiceChoice(svc)
    ensures svc == "1" ==>
      (ValidateRestaurantFinder(details).Success? || ValidateRestaurantFinder(details) == Failure(ServiceErrors(svc, details)))
    ensures svc == "1" ==> (ValidateRestaurantFinder(details).Success? <==> ServiceErrors(svc, details) == [])
    ensures svc == "2" ==>
      (ValidateHistoricalPlaces(details).Success? || ValidateHistoricalPlaces(details) == Failure(ServiceErrors(svc, details)))
    ensures svc == "2" ==> (ValidateHistoricalPlaces(details).Success? <==> ServiceErrors(svc, details) == [])
    ensures svc == "3" ==>
      (ValidateMysteryGuide(details).Success? || ValidateMysteryGuide(details) == Failure(ServiceErrors(svc, details)))
    ensures svc == "3" ==> (ValidateMysteryGuide(details).Success? <==> ServiceErrors(svc, details) == [])
  {
    if svc == "1" {
      assert ServiceErrors(svc, details) == RestaurantErrors(details);
    } else if svc == "2" {
      assert ServiceErrors(svc, details) == HistoricalErrors(details);
    } else {
      assert ServiceErrors(svc, details) == MysteryErrors(details);
    }
  }

  function Messages(errors: seq<FieldError>): (messages: seq<string>)
    ensures |messages| == |errors|
    ensures forall i :: 0 <= i < |errors| ==> messages[i] == errors[i].Message()
  {
    seq(|errors|, i requires 0 <= i < |errors| => errors[i].Message())
  }

  /** validate_and_generate_response: "Error: " followed by the comma-joined
      messages, or the model's answer to the formatted sentence. */
  function ValidateAndGenerateResponse(
    svc: string, details: map<string, string>, answer: string -> string): (reply: Reply)
    requires IsServiceChoice(svc)
    requires HasAllFields(svc, details)
    ensures reply.Says?
    ensures ServiceErrors(svc, details) != [] ==>
      reply.text == "Error: " + Join(", ", Messages(ServiceErrors(svc, details)))
    ensures ServiceErrors(svc, details) == [] ==>
      reply.text == answer(FormatUserInput(svc, details))
  {
    var errors := ServiceErrors(svc, details);
    if errors != [] then Says("Error: " + Join(", ", Messages(errors)))
    else Says(answer(FormatUserInput(svc, details)))
  }

  /** An error reply names every error the validator found. */
  lemma ErrorReplyNamesEveryError(svc: string, details: map<string, string>, answer: string -> string)
    requires IsServiceChoice(svc) && HasAllFields(svc, details)
    ensures var errors := ServiceErrors(svc, details);
      forall i :: 0 <= i < |errors| ==>
        Contains(ValidateAndGenerateResponse(svc, details, answer).text, errors[i].Message())
  {
    var errors := ServiceErrors(svc, details);
    var messages := Messages(errors);
    var joined := Join(", ", messages);
    forall i | 0 <= i < |errors|
      ensures Contains("Error: " + joined, errors[i].Message())
    {
      assert messages[i] == errors[i].Message();
      Within("Error: ", joined, messages[i]);
    }
  }

  /** validate_and_generate_response returns anything other than the
      model's answer only when validation found an error. */
  lemma AnswersWhenValid(svc: string, details: map<string, string>, answer: string -> string)
    requires IsServiceChoice(svc) && HasAllFields(svc, details)
    ensures ValidateAndGenerateResponse(svc, details, answer) != Says(answer(FormatUserInput(svc, details))) ==>
      ServiceErrors(svc, details) != []
  {
  }

  /** Storing the answer under the next field keeps the state reachable
      and grows the details by one entry; after the last field every field
      of the service is present. */
  lemma StoreNext(s: PlannerState, input: string)
    requires ValidState(s) && s.step == 2 && !Complete(s)
    ensures var fields := Fields(s.selectedService);
      var n := |s.userDetails|;
      var next := s.(userDetails := s.userDetails[fields[n] := input]);
      && ValidState(next) && |next.userDetails| == n + 1
      && (n + 1 == |fields| ==> HasAllFields(s.selectedService, next.userDetails))
  {
    var fields := Fields(s.selectedService);
    var n := |s.userDetails|;
    FirstFieldsStep(s.selectedService, n);
    var details := s.userDetails[fields[n] := input];
    assert |details| == n + 1;
    forall i | 0 <= i < n + 1
      ensures fields[i] in details
    {
      FirstFieldsMembers(s.selectedService, n + 1, i);
    }
  }

  /** collect_user_input: stores the message under the next field and asks
      the following question, or validates once the last field is in. With
      every field already filled, the table lookup raises IndexError before
      anything changes. */
  function Collect(s: PlannerState, input: string, answer: string -> string)
    : (o: Outcome<PlannerState>)
    requires ValidState(s) && s.step == 2
    ensures ValidState(o.next)
    ensures o.reply.IndexError? <==> Complete(s)
    ensures Complete(s) ==> o.next == s
    ensures !Complete(s) ==>
      var n := |s.userDetails|;
      var fields := Fields(s.selectedService);
      && o.next == s.(userDetails := s.userDetails[fields[n] := input])
      && |o.next.userDetails| == n + 1
      && (n + 1 < |fields| ==> o.reply == Says(FieldPrompt(fields[n + 1])))
      && (n + 1 == |fields| ==>
            && HasAllFields(s.selectedService, o.next.userDetails)
            && o.reply == ValidateAndGenerateResponse(s.selectedService, o.next.userDetails, answer))
  {
    if |s.userDetails| >= |Fields(s.selectedService)| then
      Outcome(s, IndexError)
    else
      StoreAndAsk(s, input, answer)
  }

  /** `steps[svc][len(user_details)]`: the field the next answer fills. */
  function NextField(s: PlannerState): string
    requires ValidState(s) && s.step == 2 && !Complete(s)
  {
    Fields(s.selectedService)[|s.userDetails|]
  }

  /** The part of collect_user_input that runs while a field is still
      unanswered. */
  function StoreAndAsk(s: PlannerState, input: string, answer: string -> string)
    : (o: Outcome<PlannerState>)
    requires ValidState(s) && s.step == 2 && !Complete(s)
    ensures ValidState(o.next) && !o.reply.IndexError?
    ensures o.next == s.(userDetails := s.userDetails[NextField(s) := input])
    ensures |o.next.userDetails| == |s.userDetails| + 1
    ensures |s.userDetails| + 1 < |Fields(s.selectedService)| ==>
      o.reply == Says(FieldPrompt(Fields(s.selectedService)[|s.userDetails| + 1]))
    ensures |s.userDetails| + 1 == |Fields(s.selectedService)| ==>
      && HasAllFields(s.selectedService, o.next.userDetails)
      && o.reply == ValidateAndGenerateResponse(s.selectedService, o.next.userDetails, answer)
  {
    var fields := Fields(s.selectedService);
    var n := |s.userDetails|;
    StoreNext(s, input);
    var details := s.userDetails[fields[n] := input];
    var next := s.(userDetails := details);
    if n + 1 < |fields| then
      assert HasPrompt(fields[n + 1]);
      Outcome(next, Says(FieldPrompt(fields[n + 1])))
    else
      Outcome(next, ValidateAndGenerateResponse(s.selectedService, details, answer))
  }

  /** process_message as a function of the state before the message. */
  function Transition(s: PlannerState, input: string, answer: string -> string)
    : (o: Outcome<PlannerState>)
    requires ValidState(s)
    ensures ValidState(o.next)
    ensures s.step <= o.next.step
    ensures s.step == 2 ==> o.next.step == 2
    ensures s.step == 0 ==>
      if IsHelpRequest(input) then o == Outcome(s.(step := 1), Says(MENU))
      else o == Outcome(s, NoReply)
    ensures s.step == 1 ==>
      if IsServiceChoice(input) then
        o == Outcome(PlannerState(2, input, map[]), Says(InitialPrompt(input)))
      else o == Outcome(s, Says(INVALID_CHOICE))
    ensures s.step == 2 ==>
      && o.next.selectedService == s.selectedService
      && s.userDetails.Keys <= o.next.userDetails.Keys
      && (forall k :: k in s.userDetails ==> o.next.userDetails[k] == s.userDetails[k])
    ensures o.reply.IndexError? <==> Complete(s)
    ensures o.reply.IndexError? ==> o.next == s
  {
    if s.step == 0 then
      if IsHelpRequest(input) then Outcome(s.(step := 1), Says(MENU))
      else Outcome(s, NoReply)
    else if s.step == 1 then
      if IsServiceChoice(input) then
        Outcome(PlannerState(2, input, s.userDetails), Says(InitialPrompt(input)))
      else Outcome(s, Says(INVALID_CHOICE))
    else
      Collect(s, input, answer)
  }

  /** Feeding a sequence of messages to a planner: the final state and the
      replies, one per message. */
  function Run(s: PlannerState, inputs: seq<string>, answer: string -> string)
    : (o: (PlannerState, seq<Reply>))
    requires ValidState(s)
    ensures ValidState(o.0) && |o.1| == |inputs|
    decreases |inputs|
  {
    if inputs == [] then (s, [])
    else
      var before := Run(s, inputs[..|inputs| - 1], answer);
      var last := Transition(before.0, inputs[|inputs| - 1], answer);
      (last.next, before.1 + [last.reply])
  }

  // ---------------------------------------------------------------------
  // Properties of the conversation
  // ---------------------------------------------------------------------

  /** At the menu, messages that are not exactly "1", "2" or "3" change
      nothing, and each one is answered with the invalid-choice text. */
  lemma {:induction false} InvalidChoicesNeverAdvance(inputs: seq<string>, answer: string -> string)
    requires forall i :: 0 <= i < |inputs| ==> !IsServiceChoice(inputs[i])
    ensures var s := INITIAL.(step := 1);
      var o := Run(s, inputs, answer);
      o.0 == s && forall i :: 0 <= i < |inputs| ==> o.1[i] == Says(INVALID_CHOICE)
    decreases |inputs|
  {
    if inputs != [] {
      InvalidChoicesNeverAdvance(inputs[..|inputs| - 1], answer);
    }
  }

  /** The answers given after the service choice, stored under the
      service's fields in order. */
  function Collected(svc: string, answers: seq<string>): (details: map<string, string>)
    requires IsServiceChoice(svc) && |answers| <= |Fields(svc)|
    ensures details.Keys == FirstFields(svc, |answers|)
    ensures forall i :: 0 <= i < |answers| ==>
      Fields(svc)[i] in details && details[Fields(svc)[i]] == answers[i]
    decreases |answers|
  {
    if answers == [] then map[]
    else
      var n := |answers| - 1;
      FirstFieldsStep(svc, n);
      Collected(svc, answers[..n])[Fields(svc)[n] := answers[n]]
  }

  /** The i-th message after the service choice is stored under the i-th
      field of that service. */
  lemma {:induction false} AnswersStoredInOrder(svc: string, answers: seq<string>, answer: string -> string)
    requires IsServiceChoice(svc) && |answers| <= |Fields(svc)|
    ensures Run(PlannerState(2, svc, map[]), answers, answer).0 == PlannerState(2, svc, Collected(svc, answers))
    decreases |answers|
  {
    if answers != [] {
      var n := |answers| - 1;
      var prefix := answers[..n];
      AnswersStoredInOrder(svc, prefix, answer);
      CollectedSize(svc, prefix);
      var before := Run(PlannerState(2, svc, map[]), prefix, answer);
      var t := Collect(before.0, answers[n], answer);
      assert t.next.userDetails == Collected(svc, answers);
    }
  }

  /** While fields remain, the reply to the n-th answer is the question
      of field n + 1. */
  lemma LastReply(svc: string, answers: seq<string>, answer: string -> string)
    requires IsServiceChoice(svc) && 1 <= |answers| < |Fields(svc)|
    ensures Run(PlannerState(2, svc, map[]), answers, answer).1[|answers| - 1]
      == Says(FieldPrompt(Fields(svc)[|answers|]))
  {
    var n := |answers| - 1;
    AnswersStoredInOrder(svc, answers[..n], answer);
    CollectedSize(svc, answers[..n]);
  }

  /** Later messages do not change the replies already given. */
  lemma {:induction false} RunPrefix(s: PlannerState, inputs: seq<string>, k: nat, answer: string -> string)
    requires ValidState(s) && k <= |inputs|
    ensures Run(s, inputs[..k], answer).1 == Run(s, inputs, answer).1[..k]
    decreases |inputs|
  {
    if k < |inputs| {
      var n := |inputs| - 1;
      RunPrefix(s, inputs[..n], k, answer);
      assert inputs[..n][..k] == inputs[..k];
      var replies := Run(s, inputs, answer).1;
      assert replies[..n] == Run(s, inputs[..n], answer).1;
      assert replies[..k] == replies[..n][..k];
    } else {
      assert inputs[..k] == inputs;
      assert Run(s, inputs, answer).1[..k] == Run(s, inputs, answer).1;
    }
  }

  /** Once all but the last field are in, the planner has answered each
      message with the question of the next field. */
  lemma FieldsCollectedInOrder(svc: string, answers: seq<string>, answer: string -> string)
    requires IsServiceChoice(svc) && |answers| <= |Fields(svc)|
    ensures var o := Run(PlannerState(2, svc, map[]), answers, answer);
      forall i :: 0 <= i < |answers| && i + 1 < |Fields(svc)| ==>
        o.1[i] == Says(FieldPrompt(Fields(svc)[i + 1]))
  {
    var s0 := PlannerState(2, svc, map[]);
    forall i | 0 <= i < |answers| && i + 1 < |Fields(svc)|
      ensures Run(s0, answers, answer).1[i] == Says(FieldPrompt(Fields(svc)[i + 1]))
    {
      RunPrefix(s0, answers, i + 1, answer);
      LastReply(svc, answers[..i + 1], answer);
      assert Run(s0, answers[..i + 1], answer).1[i] == Run(s0, answers, answer).1[i];
    }
  }

  /** Collected(svc, answers) holds one entry per answer. */
  lemma {:induction false} CollectedSize(svc: string, answers: seq<string>)
    requires IsServiceChoice(svc) && |answers| <= |Fields(svc)|
    ensures |Collected(svc, answers)| == |answers|
    decreases |answers|
  {
    if answers != [] {
      var n := |answers| - 1;
      CollectedSize(svc, answers[..n]);
      FirstFieldsStep(svc, n);
    }
  }

  /** Which answers the final validation looks at. The validators read
      fixed keys, and most of them are not among the fields a service
      collects: service 1 checks only the location and the budget, service
      2 only the location (its budget is stored under "budget" but checked
      under "total_budget"), and service 3 only the budget (its days are
      stored under "days" but checked under "days_spent"). */
  lemma RestaurantValidationScope(details: map<string, string>)
    requires details.Keys == FirstFields("1", 3)
    ensures ServiceErrors("1", details)
         == When(Blank(details["location"]), LocationRequired)
            + When(RejectedNumber(details["budget"]), BudgetNotPositive)
  {
    assert details.Keys == {"location", "cuisine", "budget"};
    assert Get(details, "hotel_address") == "";
    AbsentFieldPasses();
    var errors := RestaurantErrorList(
      Blank(details["location"]), RejectedNumber(details["budget"]), false);
    assert RestaurantErrors(details) == errors;
    assert errors == When(Blank(details["location"]), LocationRequired)
                     + When(RejectedNumber(details["budget"]), BudgetNotPositive) + [];
  }

  lemma AttractionsValidationScope(details: map<string, string>)
    requires details.Keys == FirstFields("2", 3)
    ensures ServiceErrors("2", details) == When(Blank(details["location"]), LocationRequired)
  {
    assert details.Keys == {"location", "preferences", "budget"};
    assert Get(details, "hotel_address") == "" && Get(details, "number_of_people") == "";
    assert Get(details, "total_budget") == "" && Get(details, "max_ticket_price") == "";
    AbsentFieldPasses();
    var locationMissing := MissingText(details["location"]);
    assert HistoricalErrors(details)
        == HistoricalErrorList(locationMissing, false, false, false, false);
    assert HistoricalErrorList(locationMissing, false, false, false, false)
        == When(locationMissing, LocationRequired) + [] + [] + [] + [];
  }

  lemma MysteryValidationScope(details: map<string, string>)
    requires details.Keys == FirstFields("3", 4)
    ensures ServiceErrors("3", details) == When(RejectedNumber(details["budget"]), BudgetNotPositive)
  {
    assert details.Keys == {"city", "people", "budget", "days"};
    assert Get(details, "public_transport") == "" && Get(details, "days_spent") == "";
    AbsentFieldPasses();
    var budgetBad := BadNumber(details["budget"]);
    assert MysteryErrors(details) == MysteryErrorList(false, budgetBad, false);
    assert MysteryErrorList(false, budgetBad, false)
        == [] + When(budgetBad, BudgetNotPositive) + [];
  }

  /** The first two messages of a conversation: a help request gets the
      menu, and "1" selects the restaurant finder. */
  lemma OpeningSteps(answer: string -> string)
    ensures Transition(INITIAL, "help", answer) == Outcome(INITIAL.(step := 1), Says(MENU))
    ensures Transition(INITIAL.(step := 1), "1", answer)
         == Outcome(PlannerState(2, "1", map[]), Says("Enter your location:"))
  {
    assert Lower("help") == "help";
    assert OccursAt("help", "help", 0);
  }

  /** The restaurant finder stores whatever location and cuisine it is
      given and asks the next question each time. */
  lemma RestaurantQuestions(location: string, cuisine: string, answer: string -> string)
    ensures Transition(PlannerState(2, "1", map[]), location, answer)
         == Outcome(PlannerState(2, "1", map["location" := location]), Says("Preferred cuisine?"))
    ensures Transition(PlannerState(2, "1", map["location" := location]), cuisine, answer)
         == Outcome(PlannerState(2, "1", map["location" := location, "cuisine" := cuisine]),
                    Says("Enter your budget:"))
  {
    assert map[]["location" := location] == map["location" := location];
  }

  /** The Python object: three attributes updated in place by
      process_message. */
  class TripPlanner {
    var userDetails: map<string, string>
    var step: int
    var selectedService: string

    function State(): PlannerState
      reads this
    {
      PlannerState(step, selectedService, userDetails)
    }

    predicate Valid()
      reads this
    {
      ValidState(State())
    }

    constructor()
      ensures State() == INITIAL && Valid()
    {
      userDetails := map[];
      step := 0;
      selectedService := "";
    }

    method ProcessMessage(userInput: string, answer: string -> string) returns (reply: Reply)
      requires Valid()
      modifies this
      ensures Valid()
      ensures Outcome(State(), reply) == Transition(old(State()), userInput, answer)
    {
      if step == 0 {
        if IsHelpRequest(userInput) {
          step := 1;
          return Says(MENU);
        }
        return NoReply;
      } else if step == 1 {
        if IsServiceChoice(userInput) {
          selectedService := userInput;
          step := 2;
          return Says(InitialPrompt(selectedService));
        }
        return Says(INVALID_CHOICE);
      } else {
        reply := CollectUserInput(userInput, answer);
      }
    }

    method CollectUserInput(userInput: string, answer: string -> string) returns (reply: Reply)
      requires Valid() && step == 2
      modifies this
      ensures Valid()
      ensures Outcome(State(), reply) == Collect(old(State()), userInput, answer)
    {
      var fields := Fields(selectedService);
      var currentStep := |userDetails|;
      if currentStep >= |fields| {
        return IndexError;
      }
      StoreNext(State(), userInput);
      var expectedKey := fields[currentStep];
      userDetails := userDetails[expectedKey := userInput];
      if currentStep + 1 < |fields| {
        return Says(FieldPrompt(fields[currentStep + 1]));
      }
      reply := ValidateAndGenerateResponse(selectedService, userDetails, answer);
    }
  }
}
