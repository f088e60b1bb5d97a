# travel-guru: a Dafny model of the trip-planning bot

travel-guru is a WhatsApp bot. A user asks for "help", picks one of three
services and answers a few questions. The answers are validated and turned
into a sentence for a language model, and the model's answer is sent back,
cut into chunks short enough for the messaging API. This project models the
logic behind that conversation and proves properties of it:

- `text.dfy` (module `Text`): the Python string operations the bot relies
  on. It covers `strip`, `lstrip`, `rstrip`, `lower`, `isdigit`, `int()` and
  `str()` on decimal digits, `in` on strings, `", ".join` and `rfind`.
- `validate_user_input.dfy` (module `ValidateUserInput`): the three field
  validators. Each is a function from the answers to either every error
  found, in check order, or the cleaned-up service data. A predicate on the
  raw field text states what each check means.
- `dialogue.dfy` (module `Dialogue`): what both planners share. This is the
  reply type, the menu, the service choice, the questions and field list
  of each service, and `format_user_input`.
- `trip_plan.dfy` (module `TripPlan`): the table-driven `TripPlanner` that
  the WhatsApp front end uses.
  - A pure `Transition` function on a `PlannerState` value is the
    specification.
  - The class `TripPlanner` has the Python object's three fields.
  - Its `ProcessMessage` updates them in place and is proved to follow
    `Transition`.
- `service_handler.dfy` (module `ServiceHandler`): the hand-unrolled
  `TripPlanner` variant, in the same two layers. It also proves how the two
  planners relate. Until the table-driven planner has every answer, they
  move through corresponding states and give the same replies, except the
  reply to the last answer when validation fails. After that the
  table-driven planner answers `IndexError` to every message, while the
  hand-unrolled one keeps answering through the language model.
- `app.dfy` (module `App`): `split_message` and `process_incoming_message`.
  - `split_message` is a method with a loop, proved equal to a recursive
    specification. The lemmas about that specification show:
    - every chunk fits;
    - weaving the chunks with the whitespace dropped at each cut gives back
      the text;
    - each cut is at the last newline before the limit, or is a hard cut
      when there is none.
  - `process_incoming_message` is a method of a `Server` class. The class
    holds the sender-to-planner map.

The language model is the parameter `answer: string -> string`. The model
does not look inside it. Each `fetch_data_from_openai` in the source,
including its `.strip()` and its error text, is that one function.

Some behaviour of the code is modelled as written, because the code is what
runs:

- The table-driven planner never resets. Once every field is in, the next
  message looks past the end of the field list and raises `IndexError`.
  This is modelled as the reply `IndexError`, which leaves the state
  unchanged. `process_incoming_message` lets it escape, modelled as
  `Response.Raised`.
- The hand-unrolled planner also never resets. At its final step every
  further message gets the model's answer to the same sentence again.
- The validators read fixed keys, and most of those keys are not among the
  fields the planner collects. So service 1 checks only the location and
  the budget, service 2 only the location, and service 3 only the budget.
  The `*ValidationScope` lemmas state this.
- An empty or absent `hotel_address` stays `""` in the service data. It is
  never `None`, and no character-class check exists. Only the length check
  of validate_user_input.py:27-28 is applied.
- unit_test.py:45-52 expects the reply "You said: Hello". A first message
  "Hello" from a new sender actually gets the fallback text, as
  `GreetingGetsFallback` shows.

## Model

| member | source | states |
|---|---|---|
| Text.Strip | validate_user_input.py:11-14 | `.strip()` returns a slice of its input with only whitespace outside it; the slice is "" exactly when the text is all whitespace, and otherwise begins and ends with a non-whitespace character |
| Text.StripWithin | validate_user_input.py:11-14 | any slice with only whitespace outside it is at least as long as `.strip()`'s result, so strip keeps the shortest such slice |
| Text.LStrip | app.py:116 | `.lstrip()` returns a suffix of its input; what it drops is all whitespace; what it keeps is empty or starts with a non-whitespace character |
| Text.RStrip | validate_user_input.py:11-14 | `.rstrip()` returns a prefix of its input; what it drops is all whitespace; what it keeps is empty or ends with a non-whitespace character |
| Text.LowerIsYes | validate_user_input.py:115 | `t.lower() == "yes"` exactly when t is three letters y, e, s, each in either case |
| Text.LowerIsNo | validate_user_input.py:115 | `t.lower() == "no"` exactly when t is two letters n, o, each in either case |
| Text.RFind | app.py:112 | `rfind('\n', 0, end)` is -1 or an index below `end` holding the character, and no later index below `end` holds it |
| Text.Join | trip_plan.py:81 | every part occurs in the joined string; joining nothing gives "" |
| Text.JoinAppend | trip_plan.py:81 | joining two non-empty runs of parts is joining each run with one separator between them, so the parts appear in order with exactly one separator between neighbours |
| Text.DigitsPositiveIff | validate_user_input.py:23 | `int(t) > 0` for a digit string exactly when one of its digits is not '0' |
| Text.DecimalRoundTrip | validate_user_input.py:36 | `int(str(n)) == n` |
| ValidateUserInput.NotPositiveNumber | validate_user_input.py:23 | `t and (not t.isdigit() or int(t) <= 0)` holds exactly when t is non-empty and not a positive decimal |
| ValidateUserInput.MissingText | validate_user_input.py:19 | the location check fails exactly when the raw field is absent or all whitespace |
| ValidateUserInput.BadNumber | validate_user_input.py:23-24 | the numeric check fails exactly when the stripped field is non-empty and not a positive decimal |
| ValidateUserInput.TooShortAddress | validate_user_input.py:27 | the address check fails exactly when the raw address has a part of fewer than 5 characters that starts with a non-whitespace character and has only whitespace outside it |
| ValidateUserInput.StrippedCore | validate_user_input.py:27 | that condition on the raw address holds exactly when the stripped address is non-empty and shorter than 5 characters |
| ValidateUserInput.NotYesNo | validate_user_input.py:115 | the transport check fails exactly when the stripped answer is non-empty and is not y-e-s or n-o with each letter in either case |
| ValidateUserInput.ParsedNumber | validate_user_input.py:36 | `int(t) if t.isdigit() else None` is a value exactly for digit strings, and then the value of the digits |
| ValidateUserInput.RestaurantErrorList | validate_user_input.py:16-28 | each error is in the list exactly when its check failed; the list is non-empty only if a check failed |
| ValidateUserInput.RestaurantErrorOrder | validate_user_input.py:16-28 | the errors appear in check order: location, budget, address |
| ValidateUserInput.RestaurantErrors | validate_user_input.py:11-28 | "Location is required." exactly when the location is blank; the budget error exactly when the budget is refused; the address error exactly when the address is short |
| ValidateUserInput.ValidateRestaurantFinder | validate_user_input.py:11-41 | fails exactly when there is an error, carrying all errors. On success: the location is the non-empty stripped text; the budget is None when blank and its positive value otherwise; the theme is None exactly when blank; the address is stripped and empty or at least 5 long |
| ValidateUserInput.HistoricalErrorList | validate_user_input.py:60-80 | each of the five errors is present exactly when its check failed |
| ValidateUserInput.HistoricalErrorOrder | validate_user_input.py:60-80 | the errors appear in check order |
| ValidateUserInput.HistoricalErrors | validate_user_input.py:54-80 | each error is present exactly when its field is blank, short or refused |
| ValidateUserInput.ValidateHistoricalPlaces | validate_user_input.py:54-94 | fails exactly when there is an error, carrying all errors. On success the location and address are as for restaurants, and the three numbers are None when blank or their positive values |
| ValidateUserInput.MysteryErrorList | validate_user_input.py:112-124 | each of the three errors is present exactly when its check failed |
| ValidateUserInput.MysteryErrorOrder | validate_user_input.py:112-124 | the errors appear in check order |
| ValidateUserInput.MysteryErrors | validate_user_input.py:107-124 | the transport error exactly when the answer is not yes/no; the budget and days errors exactly when refused |
| ValidateUserInput.ValidateMysteryGuide | validate_user_input.py:107-137 | fails exactly when there is an error. On success: transport is None when blank, otherwise the lower-cased "yes" or "no"; the numbers are None or positive values; preferences are None exactly when blank |
| ValidateUserInput.NumberRoundTrip | validate_user_input.py:23-24 | a field holding `str(n)` is refused exactly when n = 0, and otherwise parses back to n |
| ValidateUserInput.AcceptedNumber | validate_user_input.py:23-24 | a digit string without a leading zero passes the numeric check |
| ValidateUserInput.RefusedNumber | validate_user_input.py:23-24 | a trimmed text that is not a positive decimal is refused |
| ValidateUserInput.RefusedExamples | validate_user_input.py:23-24 | "-10", "0" and "abc" are refused |
| ValidateUserInput.BlankNumberAccepted | validate_user_input.py:23 | an absent or whitespace-only numeric field is not an error |
| ValidateUserInput.EmptyMysteryForm | validate_user_input.py:107-137 | the mystery guide accepts an empty form, with every value None |
| ValidateUserInput.RestaurantExample | test_validate_user_input.py:6-16 | the restaurant form of the unit test is accepted with location "Paris" and budget 500 |
| ValidateUserInput.NegativeBudgetExample | test_validate_user_input.py:43-47 | a budget of "-10" fails with exactly the budget error |
| Dialogue.Fields | trip_plan.py:44-48 | each service collects 3 or 4 distinct fields, "budget" among them and "service" not; the first field has no follow-up question and every later one has |
| Dialogue.InitialPrompt | trip_plan.py:33-40 | the first question of each service names its first field, "location" or "city" |
| Dialogue.FieldPromptNamesField | trip_plan.py:59-68 | the prompt table `FieldPrompt` is consulted only for its five keys (`HasPrompt`, which `Fields` guarantees for every field after the first), and each question it returns names the field it asks for ("prefer" for preferences) |
| Dialogue.InitialPromptsDiffer | trip_plan.py:33-40 | the three services open with three different questions |
| Dialogue.FieldPromptsDiffer | trip_plan.py:59-68 | the five follow-up fields, the only keys of the prompt table, get five different questions |
| Dialogue.RestaurantSentence | trip_plan.py:90 | the sentence contains the location, the cuisine and the budget verbatim |
| Dialogue.AttractionsSentence | trip_plan.py:92 | the sentence contains the location, the preferences and the budget verbatim |
| Dialogue.MysterySentence | trip_plan.py:94 | the sentence contains the city, the days, the people and the budget verbatim |
| Dialogue.FormatUserInput | trip_plan.py:87-94 | every collected answer appears verbatim in the sentence |
| Dialogue.FormatReadsOnlyFields | trip_plan.py:87-94 | the sentence depends only on the answers under the service's fields |
| Dialogue.FormatIgnoresOtherKey | service_handler.py:93-102 | an extra entry such as "service" does not change the sentence |
| TripPlan.ValidatorErrors | trip_plan.py:72-78 | the chosen service's validator succeeds exactly when there are no errors, and otherwise fails with them |
| TripPlan.ValidateAndGenerateResponse | trip_plan.py:70-85 | "Error: " plus the comma-joined messages when validation fails, otherwise the model's answer to the formatted sentence |
| TripPlan.ErrorReplyNamesEveryError | trip_plan.py:80-81 | the error reply contains the message of every error found |
| TripPlan.StoreNext | trip_plan.py:50-52 | storing under the next field keeps the keys a prefix of the field list and adds one entry; after the last one every field is present |
| TripPlan.Collect | trip_plan.py:42-57 | `IndexError` exactly when every field is already filled, with no change. Otherwise the message is stored under field number `len(user_details)` and the reply is the next question, or the validation reply after the last field |
| TripPlan.Transition | trip_plan.py:11-31 | "help" in any case opens the menu and anything else is ignored at step 0. At step 1, exactly "1", "2" or "3" selects a service and anything else is refused. From step 2 the step, the service and the stored answers never change or disappear |
| TripPlan.Run | trip_plan.py:11-31 | a run over n messages gives n replies and ends in a reachable state |
| TripPlan.InvalidChoicesNeverAdvance | trip_plan.py:22-28 | any number of invalid choices leave the state unchanged, each answered with the invalid-choice text |
| TripPlan.Collected | trip_plan.py:44-52 | the i-th answer sits under the i-th field |
| TripPlan.AnswersStoredInOrder | trip_plan.py:50-52 | after the choice, the answers end up stored under the service's fields in order |
| TripPlan.LastReply | trip_plan.py:54-55 | while fields remain, the reply to the n-th answer is the question of field n + 1 |
| TripPlan.RunPrefix | trip_plan.py:11-31 | later messages do not change the replies already given |
| TripPlan.FieldsCollectedInOrder | trip_plan.py:54-68 | each answer before the last is answered with the next field's question |
| TripPlan.RestaurantValidationScope | validate_user_input.py:11-14 | with the collected fields, service 1 is checked only on its location and budget |
| TripPlan.AttractionsValidationScope | validate_user_input.py:54-58 | with the collected fields, service 2 is checked only on its location |
| TripPlan.MysteryValidationScope | validate_user_input.py:107-110 | with the collected fields, service 3 is checked only on its budget |
| TripPlan.OpeningSteps | trip_plan.py:13-26 | "help" gets the menu and "1" then gets "Enter your location:" |
| TripPlan.RestaurantQuestions | trip_plan.py:50-55 | the location and the cuisine are stored verbatim and followed by the next questions |
| TripPlan.TripPlanner.constructor | trip_plan.py:6-9 | a new planner is at step 0 with no service and no answers |
| TripPlan.TripPlanner.ProcessMessage | trip_plan.py:11-31 | the fields and the reply after the call are those `Transition` gives for the fields before it |
| TripPlan.TripPlanner.CollectUserInput | trip_plan.py:42-57 | the fields and the reply after the call are those `Collect` gives |
| ServiceHandler.ServiceName | service_handler.py:24-25 | choice "1" stores "Restaurant Finder", "2" stores "Tourist Attractions" and "3" stores "Mystery Planning Guide" |
| ServiceHandler.FinalHasAllFields | service_handler.py:88-91 | at the final step every field the sentence reads is present |
| ServiceHandler.StoreKeepsValid | service_handler.py:38-86 | storing under the current step's field keeps the state reachable |
| ServiceHandler.FinalResponse | service_handler.py:88-91 | the final block returns the model's answer to the formatted sentence, with no validation |
| ServiceHandler.AskFirst | service_handler.py:38-52 | step 2 stores under the first field (location, location, city), advances one step and asks the next field's question |
| ServiceHandler.AskSecond | service_handler.py:54-68 | step 3 stores under the second field and asks for the budget |
| ServiceHandler.AskThird | service_handler.py:70-82 | step 4 stores the budget; it then asks for the days (service 3) or returns the model's answer |
| ServiceHandler.AskFourth | service_handler.py:84-86 | step 5 of service 3 stores the days and returns the model's answer |
| ServiceHandler.Collect | service_handler.py:38-91 | before the final step, the answer goes under the table's field for that step with the table's next question. At the final step nothing changes and the reply is the model's answer again |
| ServiceHandler.Transition | service_handler.py:10-91 | the step never decreases and grows by at most one. Step 0 and step 1 behave as in the table-driven planner, plus the service name stored under "service" |
| ServiceHandler.TripPlanner.constructor | service_handler.py:5-8 | a new planner is at step 0 with no service and no answers |
| ServiceHandler.TripPlanner.StoreAnswer | service_handler.py:40-41 | stores the answer under the step's field and advances one step |
| ServiceHandler.TripPlanner.ProcessMessage | service_handler.py:10-91 | the fields and the reply after the call are those `Transition` gives |
| ServiceHandler.TripPlanner.CollectAnswer | service_handler.py:38-91 | the fields and the reply after the call are those `Collect` gives |
| ServiceHandler.TripPlanner.TakeFirstAnswer | service_handler.py:38-52 | follows `AskFirst` |
| ServiceHandler.TripPlanner.TakeSecondAnswer | service_handler.py:54-68 | follows `AskSecond` |
| ServiceHandler.TripPlanner.TakeThirdAnswer | service_handler.py:70-82 | follows `AskThird` |
| ServiceHandler.TripPlanner.TakeFourthAnswer | service_handler.py:84-86 | follows `AskFourth` |
| ServiceHandler.TripPlanner.FinalAnswer | service_handler.py:88-91 | returns `FinalResponse` of the current fields |
| ServiceHandler.AgreeBeforeChoice | service_handler.py:12-36 | before the choice both planners move alike and give the same reply |
| ServiceHandler.CollectCorresponds | service_handler.py:38-86 | while answers are collected both planners store the same answer under the same field |
| ServiceHandler.CollectReplies | service_handler.py:88-91 | the replies differ only after the last answer, and only when the table-driven planner's validation fails |
| ServiceHandler.PlannersAgree | service_handler.py:10-91 | until the table-driven planner is complete, the two stay in step on every message. Their replies differ only on the last answer with failed validation |
| App.BreakPoint | app.py:112-114 | the cut is at the last newline among the first `max_length` characters, or at `max_length` when there is none |
| App.CutShrinks | app.py:110-116 | with `max_length >= 1` each round removes at least one character |
| App.NoProgressAtZero | app.py:110-116 | with `max_length = 0` and a text not starting with whitespace, a round produces an empty chunk and leaves the text unchanged |
| App.SplitMessage | app.py:105-119 | returns `[text]` when the text fits, otherwise the chunks the recursive specification gives |
| App.ChunksFit | app.py:110-118 | every chunk is at most `max_length` long |
| App.OnlyFirstChunkEmpty | app.py:115-118 | only the first chunk can be empty, and none is when the text does not start with whitespace |
| App.ChunksReassemble | app.py:115-118 | weaving the chunks with the whitespace runs dropped at the cuts gives back the text exactly |
| App.CutAtNewline | app.py:112-116 | at a cut before `max_length`, the text dropped by `lstrip` is non-empty and starts with the newline |
| App.HardCut | app.py:112-114 | a hard cut happens only when the first `max_length` characters hold no newline |
| App.FirstCut | app.py:112-116 | the first cut is at a newline with a shorter chunk, or is a hard cut of exactly `max_length` newline-free characters |
| App.CutRule | app.py:110-118 | every chunk obeys that rule, except that the last chunk may be the untouched remainder |
| App.ResponseTo | app.py:97 | None and "" become the fallback text, any other reply is returned as is, and `IndexError` escapes |
| App.GreetingGetsFallback | app.py:92-97 | a first "Hello" leaves the conversation at step 0 and gets the fallback text |
| App.Server.constructor | app.py:84 | the session map starts empty |
| App.Server.PlannerFor | app.py:92-95 | an unseen sender gets a fresh planner at step 0 and a known sender keeps theirs; the map changes only at that sender |
| App.Server.ProcessIncomingMessage | app.py:87-97 | only the sender's planner moves, as `Transition` says, and the response is `ResponseTo` of its reply. Every other sender's planner object and state are unchanged |

## Left out

- Twilio and Flask I/O is not modelled. This covers conversation creation, sending messages, the webhook, the polling loop, threads and `time.sleep` (app.py:32-76, app.py:127-226). It is network I/O and concurrency.
- The environment configuration and the printing of secrets (app.py:9-26) are not modelled.
- `fetch_data_from_openai` in both planners is the parameter `answer`. The OpenAI request, its exceptions and its error text are inside that function and are not modelled.
- `simulate_conversation` and `restart_conversation` are not modelled. They are console loops run at import time (trip_plan.py:112-125, service_handler.py:121-153).
- app.py:82 imports trip_plan, and that import starts the console loop at trip_plan.py:125. The loop's exit test `step == 6` (trip_plan.py:120) can never hold, because the step never exceeds 2. So the import ends only when the console input ends (`EOFError`) or when a completed dialogue raises `IndexError`. The model treats this import as if it returns, just as it treats service_handler.py:2.
- flask-app.py is a webhook wrapper around an undefined name and is not part of this model. unit_test.py only drives mocks and is not part of this model either.
- The import of an undefined `validate_user_input` function at service_handler.py:2 would stop that module from loading. The model treats the class as if it loads.
- Strings are sequences of characters with ASCII semantics. `isdigit` accepts only '0'-'9', `lower` folds only 'A'-'Z', and whitespace is the ASCII set. Python also accepts non-ASCII digits such as "²" in `isdigit` and then fails in `int()`. That path is not modelled.
- ValidateUserInput.NotPositiveNumber: parses digit strings of any length. Python's `int()` raises `ValueError` on a decimal string of more than 4300 digits (the default `sys.int_max_str_digits` of CPython 3.11 and later, and of the 3.7-3.10 security releases). So at validate_user_input.py:23, 71, 75, 79, 119 and 123 such a field makes the source raise, and the error propagates through trip_plan.py:72-78 and app.py:95. The model refuses or accepts it by its value instead.
- ValidateUserInput.ParsedNumber: gives the value of a digit string of any length, where `int(t)` at validate_user_input.py:36 and 89-91 raises `ValueError` above 4300 digits.
- ValidateUserInput.NumberRoundTrip: holds for every n in the model. In Python, `str(n)` and `int()` both raise `ValueError` once n has more than 4300 digits.
- Text.DigitsPositiveIff: `DigitsValue` is an unbounded nat, so this is Python's `int(t) > 0` only for strings of at most 4300 digits. Longer strings raise `ValueError`.
- Text.DecimalRoundTrip: `int(str(n)) == n` holds in Python only for n of at most 4300 digits. Beyond that, `str(n)` raises `ValueError`. A message body from the messaging API is far shorter than 4300 characters, so this path is unreachable through app.py.
- ValidState: both planners' operations require the reachable-state invariant. The Python object has no such check, but every state reachable through its methods satisfies it.
- App.SplitMessage requires `max_length >= 1`. The only caller passes the default 1000. With 0 the source returns `[""]` exactly when the text is all whitespace, and it never returns otherwise. After the first round has lstripped any leading whitespace, the text starts with a non-whitespace character and no later round makes progress (see `NoProgressAtZero`). The model does not cover the all-whitespace calls with 0 that do return.
- `answer` is a mathematical function, so the same sentence always gets the same answer. The source samples the language model at temperature 0.7 (trip_plan.py:105, service_handler.py:114), so two identical requests can get different answers. The claims that rely on this are: the hand-unrolled planner answers "the same sentence again" at its final step, and `CollectReplies` and `PlannersAgree` say the two planners give equal final replies. They hold only for a model that answers deterministically.
- App.Server.ProcessIncomingMessage: the session dict is a map to planner objects. Its `Valid()` invariant requires distinct senders to have distinct planners, which `PlannerFor` maintains.
