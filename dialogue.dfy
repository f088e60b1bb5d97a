/**
 * What the two TripPlanner variants have in common: the replies they can
 * give, the menu, the service choice, the questions asked for each service
 * and the sentence handed to the language model once every answer is in.
 */
module Dialogue {
  import opened Text

  /** The value process_message returns. NoReply is Python's None; IndexError
      is the exception the table-driven planner raises when a message
      arrives after every field has been collected. */
  datatype Reply = NoReply | Says(text: string) | IndexError

  /** A planner's next state together with its reply. */
  datatype Outcome<S> = Outcome(next: S, reply: Reply)

  const MENU: string :=
    "Hey! I can help with your trip. Choose a service:\n"
    + "1. Restaurant Finder\n"
    + "2. Tourist Attractions\n"
    + "3. Mystery Planning Guide\n"
    + "Enter your choice (1/2/3):"

  const INVALID_CHOICE: string := "Invalid choice. Please enter 1, 2, or 3."

  /** `"help" in user_input.lower()` */
  predicate IsHelpRequest(input: string) {
    Contains(Lower(input), "help")
  }

  /** `user_input in ["1", "2", "3"]`: the exact text, no stripping. */
  predicate IsServiceChoice(input: string) {
    input == "1" || input == "2" || input == "3"
  }

  /** The first question of each service; it names the field it asks for. */
  function InitialPrompt(svc: string): (prompt: string)
    requires IsServiceChoice(svc)
    ensures Contains(prompt, Fields(svc)[0])
  {
    var (before, field, after) :=
      if svc == "1" then ("Enter your ", "location", ":")
      else if svc == "2" then ("Enter the ", "location", " for tourist attractions:")
      else ("Enter the ", "city", " you want to travel to:");
    StartsWith(field, after);
    Within(before, field + after, field);
    assert before + field + after == before + (field + after);
    before + field + after
  }

  /** Each service opens with its own question. */
  lemma InitialPromptsDiffer(a: string, b: string)
    requires IsServiceChoice(a) && IsServiceChoice(b) && a != b
    ensures InitialPrompt(a) != InitialPrompt(b)
  {
    var p, q := InitialPrompt(a), InitialPrompt(b);
    assert p[6] != q[6] || |p| != |q|;
  }

  /** The keys under which each service stores its answers, in the order it
      asks for them. */
  function Fields(svc: string): (fields: seq<string>)
    requires IsServiceChoice(svc)
    ensures 3 <= |fields| <= 4 && "budget" in fields && "service" !in fields
    ensures forall i, j :: 0 <= i < j < |fields| ==> fields[i] != fields[j]
    ensures !HasPrompt(fields[0])
    ensures forall i :: 1 <= i < |fields| ==> HasPrompt(fields[i])
  {
    if svc == "1" then ["location", "cuisine", "budget"]
    else if svc == "2" then ["location", "preferences", "budget"]
    else ["city", "people", "budget", "days"]
  }

  /** The keys filled in once the first n answers have been given. */
  function FirstFields(svc: string, n: nat): set<string>
    requires IsServiceChoice(svc) && n <= |Fields(svc)|
  {
    if n == 0 then {} else FirstFields(svc, n - 1) + {Fields(svc)[n - 1]}
  }

  /** FirstFields(svc, n) holds exactly the fields at positions below n. */
  lemma {:induction false} FirstFieldsMembers(svc: string, n: nat, i: nat)
    requires IsServiceChoice(svc) && n <= |Fields(svc)| && i < |Fields(svc)|
    ensures Fields(svc)[i] in FirstFields(svc, n) <==> i < n
  {
    if n > 0 {
      FirstFieldsMembers(svc, n - 1, i);
    }
  }

  /** Every field of the service has an answer in details. */
  predicate HasAllFields(svc: string, details: map<string, string>)
    requires IsServiceChoice(svc)
  {
    forall i :: 0 <= i < |Fields(svc)| ==> Fields(svc)[i] in details
  }

  /** The fields that have a follow-up question: every field but the first
      of each service. */
  predicate HasPrompt(field: string) {
    field == "cuisine" || field == "budget" || field == "preferences"
    || field == "people" || field == "days"
  }

  /** The question asked for every field after the first (`get_next_prompt`).
      The source indexes its table, so any other key is a KeyError; under
      `HasPrompt` the last branch serves exactly "days". */
  function FieldPrompt(field: string): string
    requires HasPrompt(field)
  {
    if field == "cuisine" then "Preferred cuisine?"
    else if field == "budget" then "Enter your budget:"
    else if field == "preferences" then "Do you prefer monuments, parks, or viewpoints?"
    else if field == "people" then "How many people are traveling?"
    else "How many days will you travel?"
  }

  /** Each follow-up question names the field it asks for ("prefer" standing
      for "preferences"). */
  lemma FieldPromptNamesField(field: string)
    requires HasPrompt(field)
    ensures Contains(FieldPrompt(field), if field == "preferences" then "prefer" else field)
  {
    var p := FieldPrompt(field);
    if field == "cuisine" {
      var q := "Preferred cuisine?";
      assert p == q;
      assert q[10] == 'c' && q[11] == 'u' && q[12] == 'i' && q[13] == 's' && q[14] == 'i' && q[15] == 'n' && q[16] == 'e';
      assert OccursAt(q, "cuisine", 10);
    } else if field == "budget" {
      var q := "Enter your budget:";
      assert p == q;
      assert q[11] == 'b' && q[12] == 'u' && q[13] == 'd' && q[14] == 'g' && q[15] == 'e' && q[16] == 't';
      assert OccursAt(q, "budget", 11);
    } else if field == "preferences" {
      PreferencesPromptNamesField();
    } else if field == "people" {
      var q := "How many people are traveling?";
      assert p == q;
      assert q[9] == 'p' && q[10] == 'e' && q[11] == 'o' && q[12] == 'p' && q[13] == 'l' && q[14] == 'e';
      assert OccursAt(q, "people", 9);
    } else {
      var q := "How many days will you travel?";
      assert p == q;
      assert q[9] == 'd' && q[10] == 'a' && q[11] == 'y' && q[12] == 's';
      assert OccursAt(q, "days", 9);
    }
  }

  /** The longest question, proved on its own to keep the proof above small. */
  lemma PreferencesPromptNamesField()
    ensures Contains("Do you prefer monuments, parks, or viewpoints?", "prefer")
  {
    var q := "Do you prefer monuments, parks, or viewpoints?";
    assert q[7] == 'p' && q[8] == 'r' && q[9] == 'e' && q[10] == 'f' && q[11] == 'e' && q[12] == 'r';
    assert OccursAt(q, "prefer", 7);
  }

  /** Each follow-up field has its own question. */
  lemma FieldPromptsDiffer(f: string, g: string)
    requires HasPrompt(f) && HasPrompt(g) && f != g
    ensures FieldPrompt(f) != FieldPrompt(g)
  {
    var p, q := FieldPrompt(f), FieldPrompt(g);
    assert p[9] != q[9];
  }

  /** Service 1: "The user is in {location} and needs a {cuisine}
      restaurant with a budget of {budget}." */
  function RestaurantSentence(location: string, cuisine: string, budget: string): (sentence: string)
    ensures Contains(sentence, location) && Contains(sentence, cuisine) && Contains(sentence, budget)
  {
    var tail := budget + ".";
    var fromCuisine := cuisine + (" restaurant with a budget of " + tail);
    var fromLocation := location + (" and needs a " + fromCuisine);
    StartsWith(budget, ".");
    Within(" restaurant with a budget of ", tail, budget);
    Within(cuisine, " restaurant with a budget of " + tail, budget);
    StartsWith(cuisine, " restaurant with a budget of " + tail);
    Within(" and needs a ", fromCuisine, budget);
    Within(" and needs a ", fromCuisine, cuisine);
    Within(location, " and needs a " + fromCuisine, budget);
    Within(location, " and needs a " + fromCuisine, cuisine);
    StartsWith(location, " and needs a " + fromCuisine);
    Within("The user is in ", fromLocation, budget);
    Within("The user is in ", fromLocation, cuisine);
    Within("The user is in ", fromLocation, location);
    "The user is in " + fromLocation
  }

  /** Service 2: "The user is in {location} and prefers {preferences} with
      a budget of {budget}." */
  function AttractionsSentence(location: string, preferences: string, budget: string): (sentence: string)
    ensures Contains(sentence, location) && Contains(sentence, preferences) && Contains(sentence, budget)
  {
    var tail := budget + ".";
    var fromPreferences := preferences + (" with a budget of " + tail);
    var fromLocation := location + (" and prefers " + fromPreferences);
    StartsWith(budget, ".");
    Within(" with a budget of ", tail, budget);
    Within(preferences, " with a budget of " + tail, budget);
    StartsWith(preferences, " with a budget of " + tail);
    Within(" and prefers ", fromPreferences, budget);
    Within(" and prefers ", fromPreferences, preferences);
    Within(location, " and prefers " + fromPreferences, budget);
    Within(location, " and prefers " + fromPreferences, preferences);
    StartsWith(location, " and prefers " + fromPreferences);
    Within("The user is in ", fromLocation, budget);
    Within("The user is in ", fromLocation, preferences);
    Within("The user is in ", fromLocation, location);
    "The user is in " + fromLocation
  }

  /** Service 3: "The user wants to travel to {city} for {days} days with
      {people} people and a budget of {budget}." */
  function MysterySentence(city: string, days: string, people: string, budget: string): (sentence: string)
    ensures Contains(sentence, city) && Contains(sentence, days)
    ensures Contains(sentence, people) && Contains(sentence, budget)
  {
    var tail := budget + ".";
    var fromPeople := people + (" people and a budget of " + tail);
    var fromDays := days + (" days with " + fromPeople);
    var fromCity := city + (" for " + fromDays);
    StartsWith(budget, ".");
    Within(" people and a budget of ", tail, budget);
    Within(people, " people and a budget of " + tail, budget);
    StartsWith(people, " people and a budget of " + tail);
    Within(" days with ", fromPeople, budget);
    Within(" days with ", fromPeople, people);
    Within(days, " days with " + fromPeople, budget);
    Within(days, " days with " + fromPeople, people);
    StartsWith(days, " days with " + fromPeople);
    Within(" for ", fromDays, budget);
    Within(" for ", fromDays, people);
    Within(" for ", fromDays, days);
    Within(city, " for " + fromDays, budget);
    Within(city, " for " + fromDays, people);
    Within(city, " for " + fromDays, days);
    StartsWith(city, " for " + fromDays);
    Within("The user wants to travel to ", fromCity, budget);
    Within("The user wants to travel to ", fromCity, people);
    Within("The user wants to travel to ", fromCity, days);
    Within("The user wants to travel to ", fromCity, city);
    "The user wants to travel to " + fromCity
  }

  /** The sentence sent to the language model. Every answer the service
      collected appears in it verbatim. */
  function FormatUserInput(svc: string, details: map<string, string>): (sentence: string)
    requires IsServiceChoice(svc)
    requires HasAllFields(svc, details)
    ensures forall i :: 0 <= i < |Fields(svc)| ==> Contains(sentence, details[Fields(svc)[i]])
  {
    var fields := Fields(svc);
    assert fields[0] in details && fields[1] in details && fields[2] in details;
    if svc == "1" then
      RestaurantSentence(details["location"], details["cuisine"], details["budget"])
    else if svc == "2" then
      AttractionsSentence(details["location"], details["preferences"], details["budget"])
    else
      assert fields[3] in details;
      MysterySentence(details["city"], details["days"], details["people"], details["budget"])
  }

  /** The sentence depends only on the answers stored under the service's
      fields; any other entry of details is ignored. */
  lemma FormatReadsOnlyFields(svc: string, details: map<string, string>, other: map<string, string>)
    requires IsServiceChoice(svc) && HasAllFields(svc, details) && HasAllFields(svc, other)
    requires forall i :: 0 <= i < |Fields(svc)| ==> details[Fields(svc)[i]] == other[Fields(svc)[i]]
    ensures FormatUserInput(svc, details) == FormatUserInput(svc, other)
  {
    var fields := Fields(svc);
    assert details[fields[0]] == other[fields[0]];
    assert details[fields[1]] == other[fields[1]];
    assert details[fields[2]] == other[fields[2]];
    if svc == "3" {
      assert details[fields[3]] == other[fields[3]];
    }
  }

  /** In particular an entry under a key that is no field, such as the
      "service" name the hand-unrolled planner keeps, changes nothing. */
  lemma FormatIgnoresOtherKey(svc: string, details: map<string, string>, key: string, value: string)
    requires IsServiceChoice(svc) && HasAllFields(svc, details) && key !in Fields(svc)
    ensures HasAllFields(svc, details[key := value])
    ensures FormatUserInput(svc, details[key := value]) == FormatUserInput(svc, details)
  {
    FormatReadsOnlyFields(svc, details[key := value], details);
  }

  /** Adding the next field in order to the first n keys gives the first
      n + 1, and that field was not among them. */
  lemma FirstFieldsStep(svc: string, n: nat)
    requires IsServiceChoice(svc) && n < |Fields(svc)|
    ensures Fields(svc)[n] !in FirstFields(svc, n)
    ensures FirstFields(svc, n + 1) == FirstFields(svc, n) + {Fields(svc)[n]}
  {
    FirstFieldsMembers(svc, n, n);
  }
}
