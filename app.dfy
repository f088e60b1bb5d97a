/**
 * The parts of the WhatsApp front end that are logic rather than I/O: the
 * per-sender planner table behind process_incoming_message, and
 * split_message, which cuts a long reply into chunks the messaging API
 * accepts.
 */
module App {
  import opened Text
  import opened Dialogue
  import TripPlan

  const MAX_MSG_LENGTH: nat := 1000

  const FALLBACK: string := "I'm sorry, I didn't understand that."

  // ---------------------------------------------------------------------
  // split_message
  // ---------------------------------------------------------------------

  /** `text.rfind('\n', 0, max_length)`, or max_length when that is -1:
      the last newline among the first maxLength characters, or a hard cut
      after maxLength characters when there is none. */
  function BreakPoint(text: string, maxLength: nat): (bp: nat)
    requires maxLength < |text|
    ensures bp <= maxLength
    ensures bp < maxLength ==> text[bp] == '\n'
    ensures forall k :: bp < k < maxLength ==> text[k] != '\n'
    ensures bp == maxLength ==> forall k :: 0 <= k < maxLength ==> text[k] != '\n'
  {
    var r := RFind(text, '\n', maxLength);
    if r == -1 then maxLength else r
  }

  /** What is left for the next round: `text[break_point:].lstrip()`. */
  function Remainder(text: string, maxLength: nat): string
    requires maxLength < |text|
  {
    LStrip(text[BreakPoint(text, maxLength)..])
  }

  /** Each round of the loop removes at least one character once
      maxLength >= 1: a cut at position 0 happens only at a newline, and
      lstrip removes it. */
  lemma CutShrinks(text: string, maxLength: nat)
    requires 1 <= maxLength < |text|
    ensures |Remainder(text, maxLength)| < |text|
  {
    var bp := BreakPoint(text, maxLength);
    if bp == 0 {
      assert IsSpace(text[0]);
      assert LStrip(text[bp..]) == LStrip(text[1..]);
    }
  }

  /** With maxLength 0 the loop makes no progress on a text that does not
      start with whitespace: the cut is at 0, the chunk is empty and the
      remainder is the text itself, so split_message never returns. */
  lemma NoProgressAtZero(text: string)
    requires |text| > 0 && !IsSpace(text[0])
    ensures BreakPoint(text, 0) == 0 && text[..BreakPoint(text, 0)] == []
    ensures Remainder(text, 0) == text
  {
    assert text[0..] == text;
  }

  /** The chunks the while loop appends, together with the final
      non-empty remainder. */
  function Chunks(text: string, maxLength: nat): seq<string>
    requires maxLength >= 1
    decreases |text|
  {
    if |text| <= maxLength then
      if text == [] then [] else [text]
    else
      CutShrinks(text, maxLength);
      [text[..BreakPoint(text, maxLength)]] + Chunks(Remainder(text, maxLength), maxLength)
  }

  /** The whitespace lstrip removes after each chunk ("" after the last
      one when it is the untouched remainder). */
  function Gaps(text: string, maxLength: nat): seq<string>
    requires maxLength >= 1
    decreases |text|
  {
    if |text| <= maxLength then
      if text == [] then [] else [""]
    else
      var bp := BreakPoint(text, maxLength);
      var rest := Remainder(text, maxLength);
      CutShrinks(text, maxLength);
      [text[bp..|text| - |rest|]] + Gaps(rest, maxLength)
  }

  /** One round of the loop: the chunk up to the cut, then the chunks of
      the remainder. */
  lemma ChunksStep(text: string, maxLength: nat)
    requires 1 <= maxLength < |text|
    ensures |Remainder(text, maxLength)| < |text|
    ensures Chunks(text, maxLength)
      == [text[..BreakPoint(text, maxLength)]] + Chunks(Remainder(text, maxLength), maxLength)
    ensures Gaps(text, maxLength)
      == [text[BreakPoint(text, maxLength)..|text| - |Remainder(text, maxLength)|]]
         + Gaps(Remainder(text, maxLength), maxLength)
  {
    CutShrinks(text, maxLength);
  }

  /** split_message: the text itself when it fits, otherwise the chunks. */
  function SplitMessageSpec(text: string, maxLength: nat): seq<string>
    requires maxLength >= 1
  {
    if |text| <= maxLength then [text] else Chunks(text, maxLength)
  }

  /** Solver hint: regrouping a concatenation, kept out of the loop proof. */
  lemma AppendChunk(done: seq<string>, chunk: string, later: seq<string>)
    ensures done + ([chunk] + later) == (done + [chunk]) + later
  {
  }

  /** split_message as written: a loop that cuts the remaining text. */
  method SplitMessage(text: string, maxLength: nat) returns (chunks: seq<string>)
    requires maxLength >= 1
    ensures chunks == SplitMessageSpec(text, maxLength)
  {
    if |text| <= maxLength {
      return [text];
    }
    chunks := [];
    var rest := text;
    while |rest| > maxLength
      invariant chunks + Chunks(rest, maxLength) == Chunks(text, maxLength)
      decreases |rest|
    {
      var breakPoint := RFind(rest, '\n', maxLength);
      if breakPoint == -1 {
        breakPoint := maxLength;
      }
      ChunksStep(rest, maxLength);
      assert breakPoint == BreakPoint(rest, maxLength);
      var chunk := rest[..breakPoint];
      var next := LStrip(rest[breakPoint..]);
      AppendChunk(chunks, chunk, Chunks(next, maxLength));
      chunks := chunks + [chunk];
      rest := next;
    }
    if rest != [] {
      assert Chunks(rest, maxLength) == [rest];
      chunks := chunks + [rest];
    } else {
      assert Chunks(rest, maxLength) == [];
      assert chunks + [] == chunks;
    }
  }

  /** chunks[0] + gaps[0] + chunks[1] + gaps[1] + ... */
  function Weave(chunks: seq<string>, gaps: seq<string>): string
    requires |chunks| == |gaps|
  {
    if chunks == [] then [] else chunks[0] + gaps[0] + Weave(chunks[1..], gaps[1..])
  }

  /** No chunk is longer than maxLength. */
  lemma {:induction false} ChunksFit(text: string, maxLength: nat)
    requires maxLength >= 1
    ensures forall i :: 0 <= i < |Chunks(text, maxLength)| ==> |Chunks(text, maxLength)[i]| <= maxLength
    decreases |text|
  {
    if |text| > maxLength {
      CutShrinks(text, maxLength);
      ChunksFit(Remainder(text, maxLength), maxLength);
    }
  }

  /** Solver hint: the element after the first of a sequence built by
      prepending. */
  lemma LaterElement(first: string, later: seq<string>, i: nat)
    requires 1 <= i <= |later|
    ensures ([first] + later)[i] == later[i - 1]
  {
  }

  /** Only the first chunk can be empty, and none is when the text does
      not start with whitespace. */
  lemma {:induction false} OnlyFirstChunkEmpty(text: string, maxLength: nat)
    requires maxLength >= 1
    ensures forall i :: 0 < i < |Chunks(text, maxLength)| ==> Chunks(text, maxLength)[i] != []
    ensures text == [] || !IsSpace(text[0]) ==>
      forall i :: 0 <= i < |Chunks(text, maxLength)| ==> Chunks(text, maxLength)[i] != []
    decreases |text|
  {
    if |text| > maxLength {
      ChunksStep(text, maxLength);
      var bp := BreakPoint(text, maxLength);
      var rest := Remainder(text, maxLength);
      var later := Chunks(rest, maxLength);
      OnlyFirstChunkEmpty(rest, maxLength);
      assert rest == [] || !IsSpace(rest[0]);
      assert forall j :: 0 <= j < |later| ==> later[j] != [];
      var chunks := Chunks(text, maxLength);
      forall i | 0 < i < |chunks|
        ensures chunks[i] != []
      {
        LaterElement(text[..bp], later, i);
      }
      if !IsSpace(text[0]) {
        assert bp > 0 by {
          assert text[0] != '\n';
        }
        assert chunks[0] == text[..bp];
      }
    }
  }

  /** One gap per chunk. */
  lemma {:induction false} GapsMatchChunks(text: string, maxLength: nat)
    requires maxLength >= 1
    ensures |Gaps(text, maxLength)| == |Chunks(text, maxLength)|
    decreases |text|
  {
    if |text| > maxLength {
      CutShrinks(text, maxLength);
      GapsMatchChunks(Remainder(text, maxLength), maxLength);
    }
  }

  /** The whitespace lstrip removes at the first cut. */
  lemma FirstGapBlank(text: string, maxLength: nat)
    requires 1 <= maxLength < |text|
    ensures var bp := BreakPoint(text, maxLength);
      AllSpace(text[bp..|text| - |Remainder(text, maxLength)|])
  {
    var bp := BreakPoint(text, maxLength);
    var s := text[bp..];
    var r := LStrip(s);
    assert r == Remainder(text, maxLength);
    var gap := text[bp..|text| - |r|];
    assert AllSpace(s[..|s| - |r|]);
    forall k | 0 <= k < |gap|
      ensures IsSpace(gap[k])
    {
      assert gap[k] == s[..|s| - |r|][k];
    }
  }

  /** Every gap is whitespace only. */
  lemma {:induction false} GapsBlank(text: string, maxLength: nat)
    requires maxLength >= 1
    ensures forall i :: 0 <= i < |Gaps(text, maxLength)| ==> AllSpace(Gaps(text, maxLength)[i])
    decreases |text|
  {
    if |text| > maxLength {
      ChunksStep(text, maxLength);
      var bp := BreakPoint(text, maxLength);
      var rest := Remainder(text, maxLength);
      var later := Gaps(rest, maxLength);
      FirstGapBlank(text, maxLength);
      GapsBlank(rest, maxLength);
      var gaps := Gaps(text, maxLength);
      forall i | 0 <= i < |gaps|
        ensures AllSpace(gaps[i])
      {
        if i > 0 {
          LaterElement(text[bp..|text| - |rest|], later, i);
        }
      }
    } else if text != [] {
      assert AllSpace(Gaps(text, maxLength)[0]);
    }
  }

  /** Solver hint: weaving a chunk and its gap in front of the rest. */
  lemma WeaveCons(chunk: string, gap: string, chunks: seq<string>, gaps: seq<string>)
    requires |chunks| == |gaps|
    ensures Weave([chunk] + chunks, [gap] + gaps) == chunk + gap + Weave(chunks, gaps)
  {
    assert ([chunk] + chunks)[1..] == chunks;
    assert ([gap] + gaps)[1..] == gaps;
  }

  /** Nothing is lost or reordered: the chunks, with the whitespace
      removed at each cut put back, are the text. */
  lemma {:induction false} ChunksReassemble(text: string, maxLength: nat)
    requires maxLength >= 1
    ensures |Gaps(text, maxLength)| == |Chunks(text, maxLength)|
    ensures forall i :: 0 <= i < |Gaps(text, maxLength)| ==> AllSpace(Gaps(text, maxLength)[i])
    ensures Weave(Chunks(text, maxLength), Gaps(text, maxLength)) == text
    decreases |text|
  {
    GapsMatchChunks(text, maxLength);
    GapsBlank(text, maxLength);
    if |text| <= maxLength {
      if text != [] {
        WeaveCons(text, "", [], []);
      }
    } else {
      ChunksStep(text, maxLength);
      var bp := BreakPoint(text, maxLength);
      var rest := Remainder(text, maxLength);
      ChunksReassemble(rest, maxLength);
      var gap := text[bp..|text| - |rest|];
      WeaveCons(text[..bp], gap, Chunks(rest, maxLength), Gaps(rest, maxLength));
      assert text[..bp] + gap + rest == text;
    }
  }

  /** How a chunk may end: at a newline that lstrip then removes, at a
      hard cut of exactly maxLength characters with no newline in them,
      or, for the last chunk, at the end of the text. */
  predicate WellCut(chunk: string, gap: string, last: bool, maxLength: nat) {
    || (|chunk| < maxLength && gap != [] && gap[0] == '\n')
    || (|chunk| == maxLength && NoNewline(chunk))
    || (last && gap == [])
  }

  predicate NoNewline(s: string) {
    forall k :: 0 <= k < |s| ==> s[k] != '\n'
  }

  /** Solver hint: a cut that is well formed mid-text is also well formed
      as the last one. */
  lemma WellCutLast(chunk: string, gap: string, last: bool, maxLength: nat)
    requires WellCut(chunk, gap, false, maxLength)
    ensures WellCut(chunk, gap, last, maxLength)
  {
  }

  /** lstrip removes a leading newline. */
  lemma LStripDropsNewline(tail: string)
    requires tail != [] && tail[0] == '\n'
    ensures |LStrip(tail)| < |tail|
  {
    assert IsSpace(tail[0]);
  }

  /** A cut at a newline leaves that newline at the head of what lstrip
      drops. */
  lemma CutAtNewline(text: string, maxLength: nat)
    requires maxLength < |text| && BreakPoint(text, maxLength) < maxLength
    ensures var bp := BreakPoint(text, maxLength);
      var gap := text[bp..|text| - |Remainder(text, maxLength)|];
      gap != [] && gap[0] == '\n'
  {
    LStripDropsNewline(text[BreakPoint(text, maxLength)..]);
  }

  /** A hard cut happens only when no newline precedes it. */
  lemma HardCut(text: string, maxLength: nat)
    requires maxLength < |text| && BreakPoint(text, maxLength) == maxLength
    ensures NoNewline(text[..maxLength])
  {
    forall k | 0 <= k < maxLength
      ensures text[..maxLength][k] != '\n'
    {
      assert text[..maxLength][k] == text[k];
    }
  }

  /** The first cut is well placed. */
  lemma FirstCut(text: string, maxLength: nat)
    requires 1 <= maxLength < |text|
    ensures var bp := BreakPoint(text, maxLength);
      WellCut(text[..bp], text[bp..|text| - |Remainder(text, maxLength)|], false, maxLength)
  {
    if BreakPoint(text, maxLength) < maxLength {
      CutAtNewline(text, maxLength);
    } else {
      HardCut(text, maxLength);
    }
  }

  /** Every chunk ends where the loop's rule says it may. */
  lemma {:induction false} CutRule(text: string, maxLength: nat)
    requires maxLength >= 1
    ensures |Gaps(text, maxLength)| == |Chunks(text, maxLength)|
    ensures forall i :: 0 <= i < |Chunks(text, maxLength)| ==>
      WellCut(Chunks(text, maxLength)[i], Gaps(text, maxLength)[i], i == |Chunks(text, maxLength)| - 1, maxLength)
    decreases |text|
  {
    GapsMatchChunks(text, maxLength);
    if |text| > maxLength {
      ChunksStep(text, maxLength);
      var rest := Remainder(text, maxLength);
      CutRule(rest, maxLength);
      FirstCut(text, maxLength);
      var chunks := Chunks(text, maxLength);
      var gaps := Gaps(text, maxLength);
      var bp := BreakPoint(text, maxLength);
      forall i | 0 <= i < |chunks|
        ensures WellCut(chunks[i], gaps[i], i == |chunks| - 1, maxLength)
      {
        if i == 0 {
          assert chunks[0] == text[..bp] && gaps[0] == text[bp..|text| - |rest|];
          WellCutLast(text[..bp], text[bp..|text| - |rest|], i == |chunks| - 1, maxLength);
        } else {
          var j := i - 1;
          var later := Chunks(rest, maxLength);
          assert WellCut(later[j], Gaps(rest, maxLength)[j], j == |later| - 1, maxLength);
          LaterElement(text[..bp], later, i);
          LaterElement(text[bp..|text| - |rest|], Gaps(rest, maxLength), i);
          assert (j == |later| - 1) == (i == |chunks| - 1);
        }
      }
    }
  }

  // ---------------------------------------------------------------------
  // process_incoming_message
  // ---------------------------------------------------------------------

  /** What process_incoming_message produces: a text, or the IndexError
      from the planner propagating to the caller. */
  datatype Response = Respond(text: string) | Raised

  /** `reply_text if reply_text else FALLBACK`: None and "" become the
      fallback text; the planner's IndexError escapes. */
  function ResponseTo(reply: Reply): (r: Response)
    ensures r.Raised? <==> reply.IndexError?
    ensures r.Respond? ==> r.text != []
    ensures reply.Says? && reply.text != [] ==> r == Respond(reply.text)
    ensures reply.NoReply? || reply == Says([]) ==> r == Respond(FALLBACK)
  {
    match reply
    case IndexError => Raised
    case NoReply => Respond(FALLBACK)
    case Says(t) => if t == [] then Respond(FALLBACK) else Respond(t)
  }

  /** A first message without "help" in it leaves a new conversation
      where it is, and the sender is told the fallback text. */
  lemma GreetingGetsFallback(answer: string -> string)
    ensures var o := TripPlan.Transition(TripPlan.INITIAL, "Hello", answer);
      o.next == TripPlan.INITIAL && ResponseTo(o.reply) == Respond(FALLBACK)
  {
    var lowered := Lower("Hello");
    assert lowered == "hello";
    forall i: nat | i <= |lowered|
      ensures !OccursAt(lowered, "help", i)
    {
      if i + 4 <= |lowered| {
        assert lowered[i..i + 4][3] == lowered[i + 3];
      }
    }
  }

  /** The module-level conversation_state dict: one table-driven planner
      per sender. */
  class Server {
    var conversationState: map<string, TripPlan.TripPlanner>

    /** Every planner is in a reachable state and no two senders share
        one. */
    ghost predicate Valid()
      reads this, conversationState.Values
    {
      && (forall sender | sender in conversationState :: conversationState[sender].Valid())
      && (forall a, b | a in conversationState && b in conversationState && a != b ::
            conversationState[a] != conversationState[b])
    }

    constructor()
      ensures Valid() && conversationState == map[]
    {
      conversationState := map[];
    }

    /** `if from_number not in conversation_state: conversation_state[from_number] = TripPlanner()`,
        then the lookup: an unseen sender gets a fresh planner, a known one
        keeps theirs, and no planner changes. */
    method PlannerFor(fromNumber: string) returns (planner: TripPlan.TripPlanner)
      requires Valid()
      modifies this
      ensures Valid() && planner.Valid()
      ensures conversationState == old(conversationState)[fromNumber := planner]
      ensures fromNumber in old(conversationState) ==> planner == old(conversationState[fromNumber])
      ensures fromNumber !in old(conversationState) ==> fresh(planner) && planner.State() == TripPlan.INITIAL
    {
      if fromNumber !in conversationState {
        var created := new TripPlan.TripPlanner();
        conversationState := conversationState[fromNumber := created];
      }
      planner := conversationState[fromNumber];
    }

    /** process_incoming_message: the sender's planner takes the message;
        only that sender's conversation moves. */
    method ProcessIncomingMessage(incomingMsg: string, fromNumber: string, answer: string -> string)
      returns (response: Response)
      requires Valid()
      modifies this, conversationState.Values
      ensures Valid()
      ensures fromNumber in conversationState
      ensures conversationState == old(conversationState)[fromNumber := conversationState[fromNumber]]
      ensures fromNumber in old(conversationState) ==> conversationState[fromNumber] == old(conversationState[fromNumber])
      ensures fromNumber !in old(conversationState) ==> fresh(conversationState[fromNumber])
      ensures forall sender | sender in old(conversationState) && sender != fromNumber ::
        conversationState[sender].State() == old(conversationState[sender].State())
      ensures
        var before := if fromNumber in old(conversationState) then old(conversationState[fromNumber].State())
          else TripPlan.INITIAL;
        var o := TripPlan.Transition(before, incomingMsg, answer);
        && conversationState[fromNumber].State() == o.next
        && response == ResponseTo(o.reply)
    {
      var tripPlanner := PlannerFor(fromNumber);
      var reply := tripPlanner.ProcessMessage(incomingMsg, answer);
      response := ResponseTo(reply);
      forall sender | sender in old(conversationState) && sender != fromNumber
        ensures sender in conversationState && conversationState[sender] == old(conversationState[sender])
        ensures conversationState[sender].State() == old(conversationState[sender].State())
        ensures conversationState[sender].Valid()
      {
        assert conversationState[sender] != tripPlanner;
      }
    }
  }
}
