/** repairInterruptedToolCalls: every tool call gets an answer right behind it before history reaches a model. */
module ToolCallRepair {
  import opened Wrappers

  datatype FunctionCall = FunctionCall(id: string, name: string)

  /** A part carries exactly one thing; `Nothing` is a nil pointer. */
  datatype Part =
    | Nothing
    | Call(call: FunctionCall)
    | Response(id: string, name: string, body: string)
    | Other(text: string)

  datatype Content = Content(role: string, parts: seq<Part>)

  datatype Event = Event(
    id: string,
    timestamp: int,
    invocationID: string,
    branch: string,
    author: string,
    content: Option<Content>)

  /** A nil event is None. */
  type History = seq<Option<Event>>

  const MODEL: string := "model"
  const USER: string := "user"
  const INTERRUPTION: string := "tool call was interrupted before completion"

  function CallsIn(parts: seq<Part>): seq<FunctionCall> {
    if parts == [] then []
    else CallsIn(parts[..|parts| - 1]) + if parts[|parts| - 1].Call? then [parts[|parts| - 1].call] else []
  }

  function CallsOf(event: Option<Event>): seq<FunctionCall> {
    if event.Some? && event.value.content.Some? then CallsIn(event.value.content.value.parts) else []
  }

  predicate Answerable(event: Option<Event>) {
    event.Some? && event.value.content.Some? && event.value.content.value.role != MODEL
  }

  function Interrupted(call: FunctionCall): Part {
    Response(call.id, call.name, INTERRUPTION)
  }

  // ---------------------------------------------------------------- answering in the next event

  /** The responses by ID; a later one replaces an earlier one. */
  function ResponseMap(parts: seq<Part>): (m: map<string, Part>)
    ensures forall id :: id in m ==> m[id].Response? && m[id].id == id && m[id] in parts
    ensures forall p :: p in parts && p.Response? ==> p.id in m
  {
    if parts == [] then map[]
    else
      var m := ResponseMap(parts[..|parts| - 1]);
      var last := parts[|parts| - 1];
      if last.Response? then m[last.id := last] else m
  }

  function OthersIn(parts: seq<Part>): (others: seq<Part>)
    ensures forall p :: p in others ==> !p.Response?
  {
    if parts == [] then []
    else OthersIn(parts[..|parts| - 1]) + if parts[|parts| - 1].Response? then [] else [parts[|parts| - 1]]
  }

  datatype Matching = Matching(results: seq<Part>, unmatched: map<string, Part>, missing: bool)

  /** One result per call, in call order: its response, taken once, or an interruption notice. */
  function MatchCalls(calls: seq<FunctionCall>, responses: map<string, Part>): (m: Matching)
    ensures |m.results| == |calls|
  {
    if calls == [] then Matching([], responses, false)
    else
      var before := MatchCalls(calls[..|calls| - 1], responses);
      var call := calls[|calls| - 1];
      if call.id in before.unmatched then
        Matching(before.results + [before.unmatched[call.id]], before.unmatched - {call.id}, before.missing)
      else
        Matching(before.results + [Interrupted(call)], before.unmatched, true)
  }

  datatype Leftovers = Leftovers(parts: seq<Part>, unmatched: map<string, Part>)

  /** Responses to no call, each ID once, in their order. */
  function CollectUnmatched(parts: seq<Part>, unmatched: map<string, Part>): Leftovers {
    if parts == [] then Leftovers([], unmatched)
    else
      var before := CollectUnmatched(parts[..|parts| - 1], unmatched);
      var last := parts[|parts| - 1];
      if last.Response? && last.id in before.unmatched then
        Leftovers(before.parts + [last], before.unmatched - {last.id})
      else
        before
  }

  /** The parts of the next event after the repair of `calls`. */
  function AnsweredParts(calls: seq<FunctionCall>, parts: seq<Part>): seq<Part> {
    var matching := MatchCalls(calls, ResponseMap(parts));
    if !matching.missing then parts
    else matching.results + CollectUnmatched(parts, matching.unmatched).parts + OthersIn(parts)
  }

  method SortParts(parts: seq<Part>) returns (responses: map<string, Part>, otherParts: seq<Part>)
    ensures responses == ResponseMap(parts) && otherParts == OthersIn(parts)
  {
    responses, otherParts := map[], [];
    for i := 0 to |parts|
      invariant responses == ResponseMap(parts[..i]) && otherParts == OthersIn(parts[..i])
    {
      assert parts[..i + 1][..i] == parts[..i];
      if parts[i].Response? {
        responses := responses[parts[i].id := parts[i]];
      } else {
        otherParts := otherParts + [parts[i]];
      }
    }
    assert parts[..|parts|] == parts;
  }

  method OrderResults(calls: seq<FunctionCall>, responses: map<string, Part>) returns (matching: Matching)
    ensures matching == MatchCalls(calls, responses)
  {
    matching := Matching([], responses, false);
    for i := 0 to |calls|
      invariant matching == MatchCalls(calls[..i], responses)
    {
      assert calls[..i + 1][..i] == calls[..i];
      var id := calls[i].id;
      if id in matching.unmatched {
        matching := Matching(
          matching.results + [matching.unmatched[id]], matching.unmatched - {id}, matching.missing);
      } else {
        matching := Matching(matching.results + [Interrupted(calls[i])], matching.unmatched, true);
      }
    }
    assert calls[..|calls|] == calls;
  }

  method AppendUnmatched(parts: seq<Part>, unmatched: map<string, Part>) returns (kept: seq<Part>)
    ensures kept == CollectUnmatched(parts, unmatched).parts
  {
    kept := [];
    var responses := unmatched;
    for i := 0 to |parts|
      invariant Leftovers(kept, responses) == CollectUnmatched(parts[..i], unmatched)
    {
      assert parts[..i + 1][..i] == parts[..i];
      if parts[i].Response? && parts[i].id in responses {
        kept := kept + [parts[i]];
        responses := responses - {parts[i].id};
      }
    }
    assert parts[..|parts|] == parts;
  }

  method AnswerCalls(calls: seq<FunctionCall>, parts: seq<Part>) returns (answered: seq<Part>)
    ensures answered == AnsweredParts(calls, parts)
  {
    var responses, otherParts := SortParts(parts);
    var matching := OrderResults(calls, responses);
    if !matching.missing {
      return parts;
    }
    var unmatched := AppendUnmatched(parts, matching.unmatched);
    answered := matching.results + unmatched + otherParts;
  }

  // ---------------------------------------------------------------- the whole history

  function Answered(event: Event, calls: seq<FunctionCall>): Event
    requires Answerable(Some(event))
  {
    event.(content := Some(event.content.value.(parts := AnsweredParts(calls, event.content.value.parts))))
  }

  function Notice(event: Event, calls: seq<FunctionCall>): Event {
    Event(
      "interrupted-tool-results-" + event.id, event.timestamp, event.invocationID, event.branch, event.author,
      Some(Content(USER, seq(|calls|, i requires 0 <= i < |calls| => Interrupted(calls[i])))))
  }

  function Repaired(events: History): (r: History)
    decreases |events|
  {
    if events == [] then []
    else
      var calls := CallsOf(events[0]);
      if calls == [] then [events[0]] + Repaired(events[1..])
      else if |events| > 1 && Answerable(events[1]) then
        [events[0]] + Repaired([Some(Answered(events[1].value, calls))] + events[2..])
      else
        [events[0], Some(Notice(events[0].value, calls))] + Repaired(events[1..])
  }

  lemma StepOverPlain(events: History, index: nat)
    requires index < |events| && CallsOf(events[index]) == []
    ensures Repaired(events[index..]) == events[index..index + 1] + Repaired(events[index + 1..])
  {
    var rest := events[index..];
    assert rest[0] == events[index] && rest[1..] == events[index + 1..];
    assert events[index..index + 1] == [events[index]];
  }

  lemma StepOverAnswered(events: History, events': History, index: nat)
    requires index + 1 < |events| && CallsOf(events[index]) != [] && Answerable(events[index + 1])
    requires events' == events[index + 1 := Some(Answered(events[index + 1].value, CallsOf(events[index])))]
    ensures Repaired(events[index..]) == events'[index..index + 1] + Repaired(events'[index + 1..])
  {
    var rest := events[index..];
    assert rest[0] == events[index] && rest[1] == events[index + 1];
    assert events'[index + 1..] == [events'[index + 1]] + rest[2..];
    assert events'[index..index + 1] == [events[index]];
  }

  lemma StepOverUnanswered(events: History, events': History, index: nat)
    requires index < |events| && CallsOf(events[index]) != []
    requires index + 1 < |events| ==> !Answerable(events[index + 1])
    requires events' ==
      events[..index + 1] + [Some(Notice(events[index].value, CallsOf(events[index])))] + events[index + 1..]
    ensures Repaired(events[index..]) == events'[index..index + 2] + Repaired(events'[index + 2..])
  {
    var rest := events[index..];
    assert rest[0] == events[index] && rest[1..] == events[index + 1..] == events'[index + 2..];
    assert |rest| > 1 ==> rest[1] == events[index + 1];
    assert events'[index..index + 2] == [events[index], events'[index + 1]];
  }

  /** One turn of the loop: what lies before `index'` is final. */
  method RepairStep(events: History, index: nat) returns (events': History, index': nat)
    requires index < |events|
    ensures index < index' <= |events'| && |events'| - index' < |events| - index
    ensures events'[..index] == events[..index]
    ensures Repaired(events[index..]) == events'[index..index'] + Repaired(events'[index'..])
  {
    var calls := CallsOf(events[index]);
    if calls == [] {
      StepOverPlain(events, index);
      return events, index + 1;
    }
    if index + 1 < |events| && Answerable(events[index + 1]) {
      var next := events[index + 1].value;
      var parts := AnswerCalls(calls, next.content.value.parts);
      events' := events[index + 1 := Some(next.(content := Some(next.content.value.(parts := parts))))];
      StepOverAnswered(events, events', index);
      return events', index + 1;
    }
    events' := events[..index + 1] + [Some(Notice(events[index].value, calls))] + events[index + 1..];
    StepOverUnanswered(events, events', index);
    index' := index + 2;
  }

  lemma Regroup(scanned: History, rest: History, events: History, index: nat, index': nat)
    requires index <= index' <= |events| && scanned == events[..index]
    requires rest == events[index..index'] + Repaired(events[index'..])
    ensures scanned + rest == events[..index'] + Repaired(events[index'..])
  {
  }

  /** The loop inserts into the slice it scans and rewrites the event after the one it looks at. */
  method RepairInterruptedToolCalls(history: History) returns (events: History)
    ensures events == Repaired(history)
  {
    events := history;
    var index := 0;
    while index < |events|
      invariant 0 <= index <= |events|
      invariant events[..index] + Repaired(events[index..]) == Repaired(history)
      decreases |events| - index
    {
      ghost var scanned, rest := events[..index], Repaired(events[index..]);
      var events', index' := RepairStep(events, index);
      Regroup(scanned, rest, events', index, index');
      events, index := events', index';
    }
    assert events[index..] == [] && Repaired(events[index..]) == [];
  }

  // ---------------------------------------------------------------- completeness

  predicate Answers(parts: seq<Part>, call: FunctionCall) {
    exists p :: p in parts && p.Response? && p.id == call.id
  }

  /** Every event with calls is followed by a non-model event with a result for each of them. */
  predicate AllCallsAnswered(events: History) {
    forall i :: 0 <= i < |events| && CallsOf(events[i]) != [] ==>
      && i + 1 < |events|
      && Answerable(events[i + 1])
      && forall call :: call in CallsOf(events[i]) ==> Answers(events[i + 1].value.content.value.parts, call)
  }

  predicate KeyedById(responses: map<string, Part>) {
    forall id :: id in responses ==> responses[id].Response? && responses[id].id == id
  }

  predicate DistinctCalls(calls: seq<FunctionCall>) {
    forall i, j :: 0 <= i < j < |calls| ==> calls[i].id != calls[j].id
  }

  /** What stays unmatched is what no call asks for. */
  lemma {:induction false} UnmatchedResponses(calls: seq<FunctionCall>, responses: map<string, Part>)
    ensures var m := MatchCalls(calls, responses);
      && (forall id :: id in m.unmatched ==> id in responses && m.unmatched[id] == responses[id])
      && (forall id :: id in responses ==>
          (id in m.unmatched <==> forall i :: 0 <= i < |calls| ==> calls[i].id != id))
  {
    if calls != [] {
      var n := |calls| - 1;
      UnmatchedResponses(calls[..n], responses);
      assert forall i :: 0 <= i < n ==> calls[..n][i] == calls[i];
    }
  }

  lemma {:induction false} ResultsAnswerCalls(calls: seq<FunctionCall>, responses: map<string, Part>)
    requires KeyedById(responses)
    ensures var m := MatchCalls(calls, responses);
      forall i :: 0 <= i < |calls| ==> m.results[i].Response? && m.results[i].id == calls[i].id
  {
    if calls != [] {
      ResultsAnswerCalls(calls[..|calls| - 1], responses);
      UnmatchedResponses(calls[..|calls| - 1], responses);
    }
  }

  /** A result is missing when some call has no response, or shares its ID with an earlier call. */
  lemma {:induction false} MissingMeans(calls: seq<FunctionCall>, responses: map<string, Part>)
    ensures !MatchCalls(calls, responses).missing <==>
      DistinctCalls(calls) && forall i :: 0 <= i < |calls| ==> calls[i].id in responses
  {
    if calls != [] {
      var n := |calls| - 1;
      MissingMeans(calls[..n], responses);
      UnmatchedResponses(calls[..n], responses);
      assert forall i :: 0 <= i < n ==> calls[..n][i] == calls[i];
    }
  }

  /** No earlier call has the same ID. */
  predicate FirstCall(calls: seq<FunctionCall>, i: nat)
    requires i < |calls|
  {
    forall k :: 0 <= k < i ==> calls[k].id != calls[i].id
  }

  /** Only the first call of an ID gets its response. */
  lemma {:induction false} FirstCallIsMatched(calls: seq<FunctionCall>, responses: map<string, Part>, i: nat)
    requires i < |calls|
    ensures MatchCalls(calls, responses).results[i] ==
      if FirstCall(calls, i) && calls[i].id in responses then responses[calls[i].id] else Interrupted(calls[i])
  {
    var n := |calls| - 1;
    var init := calls[..n];
    if i < n {
      FirstCallIsMatched(init, responses, i);
      assert init[i] == calls[i] && FirstCall(init, i) == FirstCall(calls, i);
    } else {
      UnmatchedResponses(init, responses);
      assert forall k :: 0 <= k < n ==> init[k] == calls[k];
    }
  }

  lemma MatchedResults(calls: seq<FunctionCall>, responses: map<string, Part>)
    requires KeyedById(responses)
    ensures var m := MatchCalls(calls, responses);
      && (forall i :: 0 <= i < |calls| ==> m.results[i].Response? && m.results[i].id == calls[i].id)
      && (!m.missing <==> DistinctCalls(calls) && forall i :: 0 <= i < |calls| ==> calls[i].id in responses)
      && (DistinctCalls(calls) ==> forall i :: 0 <= i < |calls| && calls[i].id in responses ==>
          m.results[i] == responses[calls[i].id])
  {
    ResultsAnswerCalls(calls, responses);
    MissingMeans(calls, responses);
    forall i | 0 <= i < |calls| && DistinctCalls(calls) && calls[i].id in responses
      ensures MatchCalls(calls, responses).results[i] == responses[calls[i].id]
    {
      FirstCallIsMatched(calls, responses, i);
    }
  }

  lemma AnsweredPartsAnswer(calls: seq<FunctionCall>, parts: seq<Part>)
    ensures forall call :: call in calls ==> Answers(AnsweredParts(calls, parts), call)
  {
    var responses := ResponseMap(parts);
    var m := MatchCalls(calls, responses);
    MatchedResults(calls, responses);
    forall call | call in calls
      ensures Answers(AnsweredParts(calls, parts), call)
    {
      var i :| 0 <= i < |calls| && calls[i] == call;
      if m.missing {
        assert m.results[i] in AnsweredParts(calls, parts);
      } else {
        assert responses[call.id] in parts;
      }
    }
  }

  lemma {:induction false} CallsInConcat(a: seq<Part>, b: seq<Part>)
    ensures CallsIn(a + b) == CallsIn(a) + CallsIn(b)
    decreases |b|
  {
    if b == [] {
      assert a + b == a;
    } else {
      var n := |b| - 1;
      assert (a + b)[..|a + b| - 1] == a + b[..n];
      CallsInConcat(a, b[..n]);
    }
  }

  lemma {:induction false} NoCallsAmongResponses(parts: seq<Part>)
    requires forall i :: 0 <= i < |parts| ==> parts[i].Response?
    ensures CallsIn(parts) == []
    decreases |parts|
  {
    if parts != [] {
      NoCallsAmongResponses(parts[..|parts| - 1]);
    }
  }

  lemma {:induction false} CallsAmongOthers(parts: seq<Part>)
    ensures CallsIn(OthersIn(parts)) == CallsIn(parts)
    decreases |parts|
  {
    if parts != [] {
      var n := |parts| - 1;
      CallsAmongOthers(parts[..n]);
      if !parts[n].Response? {
        CallsInConcat(OthersIn(parts[..n]), [parts[n]]);
        assert CallsIn([parts[n]]) == CallsIn([]) + if parts[n].Call? then [parts[n].call] else [] by {
          assert [parts[n]][..0] == [];
        }
      } else {
        assert OthersIn(parts) == OthersIn(parts[..n]);
      }
    }
  }

  lemma {:induction false} UnmatchedAreResponses(parts: seq<Part>, unmatched: map<string, Part>)
    ensures forall i :: 0 <= i < |CollectUnmatched(parts, unmatched).parts| ==>
      CollectUnmatched(parts, unmatched).parts[i].Response? && CollectUnmatched(parts, unmatched).parts[i] in parts
    decreases |parts|
  {
    if parts != [] {
      UnmatchedAreResponses(parts[..|parts| - 1], unmatched);
    }
  }

  /** Answering does not touch the calls the next event makes itself. */
  lemma AnsweringKeepsCalls(calls: seq<FunctionCall>, parts: seq<Part>)
    ensures CallsIn(AnsweredParts(calls, parts)) == CallsIn(parts)
  {
    var m := MatchCalls(calls, ResponseMap(parts));
    if m.missing {
      MatchedResults(calls, ResponseMap(parts));
      UnmatchedAreResponses(parts, m.unmatched);
      var kept := CollectUnmatched(parts, m.unmatched).parts;
      CallsInConcat(m.results + kept, OthersIn(parts));
      CallsInConcat(m.results, kept);
      NoCallsAmongResponses(m.results);
      NoCallsAmongResponses(kept);
      CallsAmongOthers(parts);
    }
  }

  lemma NoticeAnswers(event: Event, calls: seq<FunctionCall>)
    ensures CallsOf(Some(Notice(event, calls))) == [] && Answerable(Some(Notice(event, calls)))
    ensures forall call :: call in calls ==> Answers(Notice(event, calls).content.value.parts, call)
  {
    var parts := Notice(event, calls).content.value.parts;
    NoCallsAmongResponses(parts);
    forall call | call in calls
      ensures Answers(parts, call)
    {
      var i :| 0 <= i < |calls| && calls[i] == call;
      assert parts[i] == Interrupted(call) && parts[i] in parts;
    }
  }

  /** After the repair no call is left unanswered, whatever the history was. */
  lemma {:induction false} RepairIsComplete(events: History)
    ensures AllCallsAnswered(Repaired(events))
    ensures events == [] <==> Repaired(events) == []
    ensures events != [] ==> Repaired(events)[0] == events[0]
    decreases |events|
  {
    if events == [] {
      return;
    }
    var calls := CallsOf(events[0]);
    var r := Repaired(events);
    if calls == [] {
      RepairIsComplete(events[1..]);
      assert r[1..] == Repaired(events[1..]);
      ShiftedAnswers(r);
    } else if |events| > 1 && Answerable(events[1]) {
      var tail := [Some(Answered(events[1].value, calls))] + events[2..];
      RepairIsComplete(tail);
      AnsweredPartsAnswer(calls, events[1].value.content.value.parts);
      assert r[1..] == Repaired(tail);
      ShiftedAnswers(r);
    } else {
      RepairIsComplete(events[1..]);
      NoticeAnswers(events[0].value, calls);
      assert r[1..][1..] == Repaired(events[1..]);
      ShiftedAnswers(r[1..]);
      ShiftedAnswers(r);
    }
  }

  lemma ShiftedAnswers(r: History)
    requires |r| > 0 && AllCallsAnswered(r[1..])
    requires CallsOf(r[0]) != [] ==>
      && 1 < |r| && Answerable(r[1])
      && forall call :: call in CallsOf(r[0]) ==> Answers(r[1].value.content.value.parts, call)
    ensures AllCallsAnswered(r)
  {
  }

  // ---------------------------------------------------------------- a second repair

  predicate DistinctCallsThroughout(events: History) {
    forall i :: 0 <= i < |events| ==> DistinctCalls(CallsOf(events[i]))
  }

  lemma DistinctThroughoutCons(event: Option<Event>, rest: History)
    requires DistinctCalls(CallsOf(event)) && DistinctCallsThroughout(rest)
    ensures DistinctCallsThroughout([event] + rest)
  {
  }

  lemma {:induction false} RepairKeepsDistinctCalls(events: History)
    requires DistinctCallsThroughout(events)
    ensures DistinctCallsThroughout(Repaired(events))
    decreases |events|
  {
    if events == [] {
      return;
    }
    var calls := CallsOf(events[0]);
    if calls != [] && |events| > 1 && Answerable(events[1]) {
      var tail := [Some(Answered(events[1].value, calls))] + events[2..];
      AnsweringKeepsCalls(calls, events[1].value.content.value.parts);
      DistinctThroughoutCons(tail[0], events[2..]);
      RepairKeepsDistinctCalls(tail);
      DistinctThroughoutCons(events[0], Repaired(tail));
    } else {
      var rest := Repaired(events[1..]);
      RepairKeepsDistinctCalls(events[1..]);
      DistinctThroughoutCons(events[0], rest);
      if calls != [] {
        var notice := Some(Notice(events[0].value, calls));
        NoticeAnswers(events[0].value, calls);
        DistinctThroughoutCons(notice, rest);
        DistinctThroughoutCons(events[0], [notice] + rest);
        assert [events[0]] + ([notice] + rest) == [events[0], notice] + rest;
      }
    }
  }

  /** A history whose calls are all answered is left as it is. */
  lemma {:induction false} AnsweredHistoryIsKept(events: History)
    requires AllCallsAnswered(events) && DistinctCallsThroughout(events)
    ensures Repaired(events) == events
    decreases |events|
  {
    if events == [] {
      return;
    }
    var tail := events[1..];
    assert AllCallsAnswered(tail) by {
      forall i | 0 <= i < |tail| && CallsOf(tail[i]) != []
        ensures i + 1 < |tail| && Answerable(tail[i + 1])
        ensures forall call :: call in CallsOf(tail[i]) ==> Answers(tail[i + 1].value.content.value.parts, call)
      {
        assert tail[i] == events[i + 1] && events[i + 2] == tail[i + 1];
      }
    }
    assert DistinctCallsThroughout(tail);
    AnsweredHistoryIsKept(tail);
    if CallsOf(events[0]) != [] {
      AnswersAreKept(CallsOf(events[0]), events[1].value);
      assert [events[1]] + events[2..] == tail;
    }
  }

  lemma AllAnsweredIsKept(calls: seq<FunctionCall>, parts: seq<Part>)
    requires DistinctCalls(calls) && forall call :: call in calls ==> Answers(parts, call)
    ensures AnsweredParts(calls, parts) == parts
  {
    MissingMeans(calls, ResponseMap(parts));
    forall i | 0 <= i < |calls|
      ensures calls[i].id in ResponseMap(parts)
    {
      assert Answers(parts, calls[i]);
    }
  }

  lemma AnswersAreKept(calls: seq<FunctionCall>, next: Event)
    requires DistinctCalls(calls) && Answerable(Some(next))
    requires forall call :: call in calls ==> Answers(next.content.value.parts, call)
    ensures Answered(next, calls) == next
  {
    AllAnsweredIsKept(calls, next.content.value.parts);
  }

  lemma RepairTwiceIsRepair(events: History)
    requires DistinctCallsThroughout(events)
    ensures Repaired(Repaired(events)) == Repaired(events)
  {
    RepairIsComplete(events);
    RepairKeepsDistinctCalls(events);
    AnsweredHistoryIsKept(Repaired(events));
  }

  ghost predicate AnsweringIsIdempotent(calls: seq<FunctionCall>) {
    forall parts :: AnsweredParts(calls, AnsweredParts(calls, parts)) == AnsweredParts(calls, parts)
  }

  lemma {:induction false} LastResponseWins(parts: seq<Part>, k: nat)
    requires k < |parts| && parts[k].Response?
    requires forall i :: k < i < |parts| && parts[i].Response? ==> parts[i].id != parts[k].id
    ensures parts[k].id in ResponseMap(parts) && ResponseMap(parts)[parts[k].id] == parts[k]
  {
    var n := |parts| - 1;
    if k < n {
      LastResponseWins(parts[..n], k);
    }
  }

  lemma {:induction false} NothingUnmatched(parts: seq<Part>)
    ensures CollectUnmatched(parts, map[]) == Leftovers([], map[])
    decreases |parts|
  {
    if parts != [] {
      NothingUnmatched(parts[..|parts| - 1]);
    }
  }

  /** One real result for an ID called at i and again at j: the first repair answers i with it and j with a notice. */
  lemma FirstRepair(calls: seq<FunctionCall>, i: nat, genuine: Part)
    requires genuine.Response? && i < |calls| && calls[i].id == genuine.id && FirstCall(calls, i)
    requires !DistinctCalls(calls)
    ensures var answered := AnsweredParts(calls, [genuine]);
      && |answered| == |calls|
      && forall k :: 0 <= k < |calls| ==> answered[k] == if k == i then genuine else Interrupted(calls[k])
  {
    var responses := ResponseMap([genuine]);
    var m := MatchCalls(calls, responses);
    assert [genuine][..0] == [];
    assert responses == map[][genuine.id := genuine];
    MissingMeans(calls, responses);
    forall k | 0 <= k < |calls|
      ensures m.results[k] == if k == i then genuine else Interrupted(calls[k])
    {
      FirstCallIsMatched(calls, responses, k);
    }
    UnmatchedResponses(calls, responses);
    assert m.unmatched == map[];
    NothingUnmatched([genuine]);
    assert OthersIn([genuine]) == OthersIn([]) == [];
  }

  /** The second repair answers the first call with the notice for the last one of its ID. */
  lemma SecondRepair(calls: seq<FunctionCall>, i: nat, j: nat, answered: seq<Part>)
    requires i < j < |calls| == |answered| && calls[i].id == calls[j].id && FirstCall(calls, i)
    requires forall k :: j < k < |calls| ==> calls[k].id != calls[j].id
    requires forall k :: i < k < |calls| ==> answered[k] == Interrupted(calls[k])
    ensures |AnsweredParts(calls, answered)| >= |calls| && AnsweredParts(calls, answered)[i] == Interrupted(calls[j])
  {
    LastResponseWins(answered, j);
    MissingMeans(calls, ResponseMap(answered));
    FirstCallIsMatched(calls, ResponseMap(answered), i);
  }

  lemma {:induction false} FirstOf(calls: seq<FunctionCall>, k: nat) returns (i: nat)
    requires k < |calls|
    ensures i <= k && calls[i].id == calls[k].id && FirstCall(calls, i)
  {
    i := 0;
    while calls[i].id != calls[k].id
      invariant i <= k && forall l :: 0 <= l < i ==> calls[l].id != calls[k].id
      decreases k - i
    {
      i := i + 1;
    }
  }

  lemma {:induction false} LastOf(calls: seq<FunctionCall>, k: nat) returns (j: nat)
    requires k < |calls|
    ensures k <= j < |calls| && calls[j].id == calls[k].id
    ensures forall l :: j < l < |calls| ==> calls[l].id != calls[j].id
  {
    j := |calls| - 1;
    while calls[j].id != calls[k].id
      invariant k <= j < |calls| && forall l :: j < l < |calls| ==> calls[l].id != calls[k].id
      decreases j
    {
      j := j - 1;
    }
  }

  /** With a repeated call ID, a second repair takes the real result of that ID away. */
  lemma DuplicateCallLosesItsResult(calls: seq<FunctionCall>, body: string) returns (genuine: Part)
    requires !DistinctCalls(calls)
    ensures genuine.Response? && genuine.body == body
    ensures genuine in AnsweredParts(calls, [genuine])
    ensures body != INTERRUPTION ==>
      AnsweredParts(calls, AnsweredParts(calls, [genuine])) != AnsweredParts(calls, [genuine])
  {
    var a, b :| 0 <= a < b < |calls| && calls[a].id == calls[b].id;
    var i := FirstOf(calls, a);
    var j := LastOf(calls, b);
    genuine := Response(calls[i].id, calls[j].name, body);
    FirstRepair(calls, i, genuine);
    var answered := AnsweredParts(calls, [genuine]);
    SecondRepair(calls, i, j, answered);
    assert answered[i] == genuine;
  }

  /** Answering the calls of an event twice is answering them once, whatever came back, exactly when their IDs differ. */
  lemma AnsweringIsIdempotentExactly(calls: seq<FunctionCall>)
    ensures AnsweringIsIdempotent(calls) <==> DistinctCalls(calls)
  {
    if DistinctCalls(calls) {
      forall parts
        ensures AnsweredParts(calls, AnsweredParts(calls, parts)) == AnsweredParts(calls, parts)
      {
        AnsweredPartsAnswer(calls, parts);
        AllAnsweredIsKept(calls, AnsweredParts(calls, parts));
      }
    } else {
      var genuine := DuplicateCallLosesItsResult(calls, "");
    }
  }

  ghost predicate SecondRepairKeeps(event: Event) {
    forall rest | DistinctCallsThroughout(rest) ::
      Repaired(Repaired([Some(event)] + rest)) == Repaired([Some(event)] + rest)
  }

  /** An event with no calls behind one with calls is answered, and that is all. */
  lemma RepairOfTwo(event: Event, next: Event)
    requires CallsOf(Some(event)) != [] && Answerable(Some(next)) && CallsOf(Some(next)) == []
    ensures Repaired([Some(event)] + [Some(next)]) == [Some(event)] + [Some(Answered(next, CallsOf(Some(event))))]
    ensures CallsOf(Some(Answered(next, CallsOf(Some(event))))) == []
  {
    var answered := Some(Answered(next, CallsOf(Some(event))));
    AnsweringKeepsCalls(CallsOf(Some(event)), next.content.value.parts);
    assert ([Some(event)] + [Some(next)])[2..] == [];
    assert Repaired([answered]) == [answered] + Repaired([]);
  }

  lemma ResultsHaveNoCalls(genuine: Part)
    requires genuine.Response?
    ensures CallsIn([genuine]) == []
  {
    assert [genuine][..0] == [];
  }

  lemma SecondRepairOfTwo(event: Event, next: Event)
    requires CallsOf(Some(event)) != [] && Answerable(Some(next)) && CallsOf(Some(next)) == []
    ensures var calls := CallsOf(Some(event));
      var history := [Some(event)] + [Some(next)];
      Repaired(Repaired(history)) == [Some(event)] + [Some(Answered(Answered(next, calls), calls))]
  {
    RepairOfTwo(event, next);
    RepairOfTwo(event, Answered(next, CallsOf(Some(event))));
  }

  lemma SecondAnswerChanges(event: Event, next: Event)
    requires Answerable(Some(next)) && CallsOf(Some(event)) != [] && CallsOf(Some(next)) == []
    requires Answered(Answered(next, CallsOf(Some(event))), CallsOf(Some(event))) != Answered(next, CallsOf(Some(event)))
    ensures !SecondRepairKeeps(event)
  {
    var rest := [Some(next)];
    RepairOfTwo(event, next);
    SecondRepairOfTwo(event, next);
    assert Repaired([Some(event)] + rest)[1] != Repaired(Repaired([Some(event)] + rest))[1];
    assert DistinctCallsThroughout(rest);
  }

  lemma SecondRepairBreaks(event: Event)
    requires !DistinctCalls(CallsOf(Some(event)))
    ensures !SecondRepairKeeps(event)
  {
    var calls := CallsOf(Some(event));
    var genuine := DuplicateCallLosesItsResult(calls, "");
    ResultsHaveNoCalls(genuine);
    SecondAnswerChanges(event, event.(content := Some(Content(USER, [genuine]))));
  }

  /**
   A repaired history stays as it is on the next repair, whatever follows an event, exactly when the ids of that
   event's calls differ.
   */
  lemma SecondRepairKeepsExactly(event: Event)
    ensures SecondRepairKeeps(event) <==> DistinctCalls(CallsOf(Some(event)))
  {
    if DistinctCalls(CallsOf(Some(event))) {
      forall rest | DistinctCallsThroughout(rest)
        ensures Repaired(Repaired([Some(event)] + rest)) == Repaired([Some(event)] + rest)
      {
        RepairTwiceIsRepair([Some(event)] + rest);
      }
    } else {
      SecondRepairBreaks(event);
    }
  }

  // ---------------------------------------------------------------- nothing real is lost

  predicate DistinctResponses(parts: seq<Part>) {
    forall i, j :: 0 <= i < j < |parts| && parts[i].Response? && parts[j].Response? ==> parts[i].id != parts[j].id
  }

  lemma {:induction false} OthersKeepCount(parts: seq<Part>, p: Part)
    requires !p.Response?
    ensures multiset(OthersIn(parts))[p] == multiset(parts)[p]
    decreases |parts|
  {
    if parts != [] {
      var n := |parts| - 1;
      OthersKeepCount(parts[..n], p);
      assert parts == parts[..n] + [parts[n]];
    }
  }

  lemma {:induction false} KeptUnmatched(parts: seq<Part>, unmatched: map<string, Part>)
    ensures var kept := CollectUnmatched(parts, unmatched);
      && DistinctResponses(kept.parts)
      && (forall i :: 0 <= i < |kept.parts| ==> kept.parts[i].Response? && kept.parts[i].id in unmatched)
      && (forall i :: 0 <= i < |kept.parts| ==> kept.parts[i].id !in kept.unmatched)
      && (forall id :: id in kept.unmatched ==> id in unmatched)
    decreases |parts|
  {
    if parts != [] {
      KeptUnmatched(parts[..|parts| - 1], unmatched);
    }
  }

  lemma {:induction false} StaysUnmatched(parts: seq<Part>, unmatched: map<string, Part>, id: string)
    requires forall i :: 0 <= i < |parts| && parts[i].Response? ==> parts[i].id != id
    ensures id in unmatched ==> id in CollectUnmatched(parts, unmatched).unmatched
    decreases |parts|
  {
    if parts != [] {
      StaysUnmatched(parts[..|parts| - 1], unmatched, id);
    }
  }

  lemma {:induction false} DistinctAreKept(parts: seq<Part>, unmatched: map<string, Part>, i: nat)
    requires DistinctResponses(parts) && i < |parts| && parts[i].Response? && parts[i].id in unmatched
    ensures parts[i] in CollectUnmatched(parts, unmatched).parts
    decreases |parts|
  {
    var init := parts[..|parts| - 1];
    if i < |init| {
      DistinctAreKept(init, unmatched, i);
      assert init[i] == parts[i];
    } else {
      StaysUnmatched(init, unmatched, parts[i].id);
    }
  }

  /** A rewritten answer holds at most one response per ID. */
  lemma AnsweredPartsAreDistinct(calls: seq<FunctionCall>, parts: seq<Part>)
    requires DistinctCalls(calls)
    requires MatchCalls(calls, ResponseMap(parts)).missing
    ensures DistinctResponses(AnsweredParts(calls, parts))
  {
    var m := MatchCalls(calls, ResponseMap(parts));
    MatchedResults(calls, ResponseMap(parts));
    UnmatchedResponses(calls, ResponseMap(parts));
    KeptUnmatched(parts, m.unmatched);
    var kept := CollectUnmatched(parts, m.unmatched).parts;
    var others := OthersIn(parts);
    assert DistinctResponses(m.results + kept);
    forall i | 0 <= i < |others|
      ensures !others[i].Response?
    {
      assert others[i] in others;
    }
  }

  lemma SubMultisetOfDistinct(a: seq<Part>, b: seq<Part>)
    requires DistinctResponses(b) && multiset(a) <= multiset(b)
    ensures DistinctResponses(a)
  {
    forall i, j | 0 <= i < j < |a| && a[i].Response? && a[j].Response?
      ensures a[i].id != a[j].id
    {
      OnceInDistinct(b, a[i]);
      assert a == a[..i] + [a[i]] + a[i + 1..j] + [a[j]] + a[j + 1..];
      assert a[i] in multiset(b) && a[j] in multiset(b);
    }
  }

  lemma {:induction false} OnceInDistinct(b: seq<Part>, p: Part)
    requires DistinctResponses(b) && p.Response?
    ensures multiset(b)[p] <= 1
    decreases |b|
  {
    if b != [] {
      var n := |b| - 1;
      OnceInDistinct(b[..n], p);
      assert b == b[..n] + [b[n]];
      if b[n] == p {
        assert p !in b[..n];
      }
    }
  }

  /**
   Every part of the next event survives when no two of its responses share an ID, whatever is called. With distinct
   call IDs it does exactly then or when nothing is missing.
   */
  lemma RealPartsSurvive(calls: seq<FunctionCall>, parts: seq<Part>)
    ensures DistinctResponses(parts) ==> multiset(parts) <= multiset(AnsweredParts(calls, parts))
    ensures DistinctCalls(calls) ==>
      (multiset(parts) <= multiset(AnsweredParts(calls, parts)) <==>
        DistinctResponses(parts) || forall i :: 0 <= i < |calls| ==> Answers(parts, calls[i]))
  {
    var responses := ResponseMap(parts);
    var m := MatchCalls(calls, responses);
    MatchedResults(calls, responses);
    if m.missing {
      if DistinctResponses(parts) {
        DistinctPartsSurvive(calls, parts);
      } else if DistinctCalls(calls) {
        NothingIsMissing(calls, parts);
        AnsweredPartsAreDistinct(calls, parts);
        if multiset(parts) <= multiset(AnsweredParts(calls, parts)) {
          SubMultisetOfDistinct(parts, AnsweredParts(calls, parts));
        }
      }
    } else {
      forall i | 0 <= i < |calls|
        ensures Answers(parts, calls[i])
      {
        assert responses[calls[i].id] in parts;
      }
    }
  }

  lemma NothingIsMissing(calls: seq<FunctionCall>, parts: seq<Part>)
    requires DistinctCalls(calls)
    ensures (forall i :: 0 <= i < |calls| ==> Answers(parts, calls[i])) ==> !MatchCalls(calls, ResponseMap(parts)).missing
  {
    MissingMeans(calls, ResponseMap(parts));
  }

  /** A part answers a call: it is a response that came back for the call's id, or, if none did, the notice for it. */
  predicate AnswersFrom(part: Part, call: FunctionCall, parts: seq<Part>) {
    && part.Response? && part.id == call.id
    && if exists p :: p in parts && p.Response? && p.id == call.id then part in parts
       else part.name == call.name && part.body == INTERRUPTION
  }

  /**
   When an answer is missing the event is rewritten: first one result for each call, in the order of the calls, taken
   from what came back where there is one; then what answers no call, and then everything else.
   */
  lemma ResultsComeFirst(calls: seq<FunctionCall>, parts: seq<Part>)
    requires DistinctCalls(calls)
    requires exists i :: 0 <= i < |calls| && !Answers(parts, calls[i])
    ensures var answered := AnsweredParts(calls, parts);
      && |answered| >= |calls|
      && (forall i :: 0 <= i < |calls| ==> AnswersFrom(answered[i], calls[i], parts))
      && (forall i, k :: 0 <= i < |calls| <= k < |answered| && answered[k].Response? ==> answered[k].id != calls[i].id)
      && (forall k :: |calls| <= k < |answered| ==> answered[k] in parts)
      && OthersIn(answered[|calls|..]) == OthersIn(parts)
  {
    var responses := ResponseMap(parts);
    var m := MatchCalls(calls, responses);
    var answered := AnsweredParts(calls, parts);
    SomeAnswerIsMissing(calls, parts);
    MatchedResults(calls, responses);
    UnmatchedResponses(calls, responses);
    KeptUnmatched(parts, m.unmatched);
    UnmatchedAreResponses(parts, m.unmatched);
    var kept, others := CollectUnmatched(parts, m.unmatched).parts, OthersIn(parts);
    forall i | 0 <= i < |calls|
      ensures AnswersFrom(answered[i], calls[i], parts)
    {
      FirstCallIsMatched(calls, responses, i);
    }
    OthersAreGiven(parts);
    assert answered[|calls|..] == kept + others;
    OthersBehind(kept, parts);
  }

  lemma SomeAnswerIsMissing(calls: seq<FunctionCall>, parts: seq<Part>)
    requires DistinctCalls(calls)
    ensures (exists i :: 0 <= i < |calls| && !Answers(parts, calls[i])) ==> MatchCalls(calls, ResponseMap(parts)).missing
  {
    MissingMeans(calls, ResponseMap(parts));
  }

  lemma {:induction false} OthersAreGiven(parts: seq<Part>)
    ensures forall p :: p in OthersIn(parts) ==> p in parts && !p.Response?
    decreases |parts|
  {
    if parts != [] {
      OthersAreGiven(parts[..|parts| - 1]);
    }
  }

  lemma {:induction false} OthersOfConcat(a: seq<Part>, b: seq<Part>)
    ensures OthersIn(a + b) == OthersIn(a) + OthersIn(b)
    decreases |b|
  {
    if b == [] {
      assert a + b == a;
    } else {
      assert (a + b)[..|a + b| - 1] == a + b[..|b| - 1];
      OthersOfConcat(a, b[..|b| - 1]);
    }
  }

  lemma {:induction false} NoOthersAmongResponses(parts: seq<Part>)
    requires forall i :: 0 <= i < |parts| ==> parts[i].Response?
    ensures OthersIn(parts) == []
    decreases |parts|
  {
    if parts != [] {
      NoOthersAmongResponses(parts[..|parts| - 1]);
    }
  }

  lemma {:induction false} OthersOfOthers(parts: seq<Part>)
    ensures OthersIn(OthersIn(parts)) == OthersIn(parts)
    decreases |parts|
  {
    if parts != [] {
      var n := |parts| - 1;
      OthersOfOthers(parts[..n]);
      if !parts[n].Response? {
        OthersOfConcat(OthersIn(parts[..n]), [parts[n]]);
        assert [parts[n]][..0] == [];
      } else {
        assert OthersIn(parts) == OthersIn(parts[..n]);
      }
    }
  }

  lemma OthersBehind(kept: seq<Part>, parts: seq<Part>)
    requires forall i :: 0 <= i < |kept| ==> kept[i].Response?
    ensures OthersIn(kept + OthersIn(parts)) == OthersIn(parts)
  {
    OthersOfConcat(kept, OthersIn(parts));
    NoOthersAmongResponses(kept);
    OthersOfOthers(parts);
  }

  /** Two responses of one ID beside a call without one: the event is rewritten and only one of them is kept. */
  lemma RepeatedResponseIsDropped(call: FunctionCall, first: Part, second: Part)
    requires first.Response? && second.Response? && first.id == second.id != call.id
    ensures !(multiset([first, second]) <= multiset(AnsweredParts([call], [first, second])))
  {
    var parts := [first, second];
    assert !DistinctResponses(parts) by {
      assert parts[0].id == parts[1].id;
    }
    assert !Answers(parts, [call][0]);
    RealPartsSurvive([call], parts);
  }

  lemma DistinctPartsSurvive(calls: seq<FunctionCall>, parts: seq<Part>)
    requires DistinctResponses(parts)
    requires MatchCalls(calls, ResponseMap(parts)).missing
    ensures multiset(parts) <= multiset(AnsweredParts(calls, parts))
  {
    var responses := ResponseMap(parts);
    var m := MatchCalls(calls, responses);
    var kept := CollectUnmatched(parts, m.unmatched).parts;
    var others := OthersIn(parts);
    var answered := AnsweredParts(calls, parts);
    MatchedResults(calls, responses);
    UnmatchedResponses(calls, responses);
    assert multiset(answered) == multiset(m.results) + multiset(kept) + multiset(others);
    forall p
      ensures multiset(parts)[p] <= multiset(answered)[p]
    {
      if !p.Response? {
        OthersKeepCount(parts, p);
      } else if p in parts {
        OnceInDistinct(parts, p);
        var k :| 0 <= k < |parts| && parts[k] == p;
        assert responses[p.id] == p by {
          var l :| 0 <= l < |parts| && parts[l] == responses[p.id];
          assert l == k;
        }
        if p.id in m.unmatched {
          DistinctAreKept(parts, m.unmatched, k);
        } else {
          var called :| 0 <= called < |calls| && calls[called].id == p.id;
          var i := FirstOf(calls, called);
          FirstCallIsMatched(calls, responses, i);
          assert m.results[i] == p;
        }
      }
    }
  }

  predicate DistinctIds(events: History) {
    && DistinctCallsThroughout(events)
    && forall i :: 0 <= i < |events| && Answerable(events[i]) ==> DistinctResponses(events[i].value.content.value.parts)
  }

  /** The same event, perhaps with parts added or moved. */
  ghost predicate Grown(before: Option<Event>, after: Option<Event>) {
    || before == after
    || (&& before.Some? && before.value.content.Some? && after.Some? && after.value.content.Some?
        && multiset(before.value.content.value.parts) <= multiset(after.value.content.value.parts)
        && after.value == before.value.(content := Some(before.value.content.value.(parts := after.value.content.value.parts))))
  }

  /** `after` is `before`, event by event in order, with interruption notices put in behind their calls. */
  ghost predicate Extends(before: History, after: History)
    decreases |after|
  {
    if before == [] then after == []
    else
      && after != []
      && Grown(before[0], after[0])
      && (|| Extends(before[1..], after[1..])
          || (&& |after| > 1 && after[0].Some?
              && after[1] == Some(Notice(after[0].value, CallsOf(after[0])))
              && Extends(before[1..], after[2..])))
  }

  /** Existing events keep their order and every real part survives. */
  lemma {:induction false} RepairExtends(events: History)
    requires DistinctIds(events)
    ensures Extends(events, Repaired(events))
    decreases |events|
  {
    if events == [] {
      return;
    }
    var calls := CallsOf(events[0]);
    var r := Repaired(events);
    if calls == [] {
      RepairExtends(events[1..]);
      assert r[1..] == Repaired(events[1..]);
    } else if |events| > 1 && Answerable(events[1]) {
      var next := events[1].value;
      var answered := Some(Answered(next, calls));
      var tail := [answered] + events[2..];
      AnsweringKeepsCalls(calls, next.content.value.parts);
      RealPartsSurvive(calls, next.content.value.parts);
      if MatchCalls(calls, ResponseMap(next.content.value.parts)).missing {
        AnsweredPartsAreDistinct(calls, next.content.value.parts);
      }
      RepairExtends(tail);
      assert r[1..] == Repaired(tail);
      GrownHead(events[1..], tail, r[1..]);
    } else {
      RepairExtends(events[1..]);
      assert r[2..] == Repaired(events[1..]);
    }
  }

  lemma GrownHead(before: History, middle: History, after: History)
    requires before != [] && middle != [] && before[1..] == middle[1..] && Grown(before[0], middle[0])
    requires Extends(middle, after)
    ensures Extends(before, after)
  {
  }
}
