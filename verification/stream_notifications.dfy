/** The streamed progress log of the autonomous research app: `ResearchManager.run`
    (`autonomous_deep_research/research_manager.py`) and the identical `run` of
    `autonomous_deep_research/main.py` fold the agent's event stream into a list of
    notifications, yielding the joined list after each notification and a final
    pair that carries the report. The event stream is an input. */
module StreamNotifications {
  import opened Wrappers
  import opened Text

  /** The `item` of a `run_item_stream_event`: a tool call (with the tool's name), a
      tool output (with its `str`), or any other item. */
  datatype RunItem = ToolCall(toolName: string) | ToolOutput(output: string) | OtherItem

  datatype Event =
    | RawResponse
    | AgentUpdated(agentName: string)
    | RunItemEvent(item: RunItem)

  /** One `yield`: the notifications text and the report (`None` until the end). */
  datatype Yield = Yield(notifications: string, report: Option<string>)

  /** The notification an event adds: exactly one for a reported event, none otherwise. */
  function NoteOf(e: Event): (n: seq<string>)
    ensures |n| == if Reported(e) then 1 else 0
  {
    match e
    case RawResponse => []
    case AgentUpdated(name) => ["Agent updated: " + name]
    case RunItemEvent(ToolCall(name)) => ["-- Tool was called: " + name]
    case RunItemEvent(ToolOutput(_)) => ["-- Tool output generated"]
    case RunItemEvent(OtherItem) => []
  }

  /** Every notification the events add, in order. */
  function Notifications(events: seq<Event>): seq<string>
    decreases |events|
  {
    if |events| == 0 then [] else Notifications(events[..|events| - 1]) + NoteOf(events[|events| - 1])
  }

  /** `final_output` after the events: the last tool output seen, `""` before any. */
  function FinalOutput(events: seq<Event>): string
    decreases |events|
  {
    if |events| == 0 then ""
    else
      var e := events[|events| - 1];
      if e.RunItemEvent? && e.item.ToolOutput? then e.item.output else FinalOutput(events[..|events| - 1])
  }

  /** Whether an event is one that the app reports. */
  predicate Reported(e: Event) {
    e.AgentUpdated? || (e.RunItemEvent? && (e.item.ToolCall? || e.item.ToolOutput?))
  }

  /** The intermediate yield after the `k`-th notification (0-based). */
  function Progress(notes: seq<string>, k: nat): Yield
    requires k < |notes|
  {
    Yield(Join("\n", notes[..k + 1]), None)
  }

  /** The run: one intermediate yield per notification, each showing every notification
      so far joined by newlines; then exactly one final yield with the report. */
  method Run(events: seq<Event>) returns (out: seq<Yield>)
    ensures |out| == |Notifications(events)| + 1
    ensures forall k :: 0 <= k < |out| - 1 ==> out[k] == Progress(Notifications(events), k)
    ensures out[|out| - 1] == Yield(Join("\n", Notifications(events)), Some(FinalOutput(events)))
  {
    var notes: seq<string> := [];
    var finalOutput := "";
    out := [];
    var i := 0;
    while i < |events|
      invariant 0 <= i <= |events|
      invariant notes == Notifications(events[..i])
      invariant finalOutput == FinalOutput(events[..i])
      invariant |out| == |notes|
      invariant forall k :: 0 <= k < |out| ==> out[k] == Progress(notes, k)
    {
      assert events[..i + 1][..i] == events[..i];
      var e := events[i];
      var note := NoteOf(e);
      ProgressOfExtension(notes, note);
      notes := notes + note;
      if |note| == 1 {
        out := out + [Progress(notes, |notes| - 1)];
      }
      if e.RunItemEvent? && e.item.ToolOutput? {
        finalOutput := e.item.output;
      }
      i := i + 1;
    }
    assert events[..|events|] == events;
    out := out + [Yield(Join("\n", notes), Some(finalOutput))];
  }

  /** Later notifications do not change an earlier yield. */
  lemma ProgressOfExtension(notes: seq<string>, more: seq<string>)
    ensures forall k :: 0 <= k < |notes| ==> Progress(notes + more, k) == Progress(notes, k)
  {
    forall k | 0 <= k < |notes| ensures Progress(notes + more, k) == Progress(notes, k) {
      assert (notes + more)[..k + 1] == notes[..k + 1];
    }
  }

  /** The positions below `n` holding a reported event. */
  function ReportedBelow(events: seq<Event>, n: nat): set<nat>
    requires n <= |events|
  {
    set i: nat | i < n && Reported(events[i])
  }

  /** The log counts exactly the reported events: agent updates, tool calls and tool
      outputs; raw responses and other items add nothing. */
  lemma NotificationsCountReported(events: seq<Event>)
    ensures |Notifications(events)| == |set i | 0 <= i < |events| && Reported(events[i])|
  {
    assert events[..|events|] == events;
    PrefixCountReported(events, |events|);
    assert ReportedBelow(events, |events|) == set i | 0 <= i < |events| && Reported(events[i]);
  }

  /** The same count for every prefix. */
  lemma {:induction false} PrefixCountReported(events: seq<Event>, n: nat)
    requires n <= |events|
    ensures |Notifications(events[..n])| == |ReportedBelow(events, n)|
    decreases n
  {
    if n > 0 {
      PrefixCountReported(events, n - 1);
      assert events[..n][..n - 1] == events[..n - 1];
      assert |Notifications(events[..n])| == |Notifications(events[..n - 1])| + |NoteOf(events[n - 1])|;
      if Reported(events[n - 1]) {
        assert ReportedBelow(events, n) == ReportedBelow(events, n - 1) + {n - 1};
      } else {
        assert ReportedBelow(events, n) == ReportedBelow(events, n - 1);
      }
    }
  }

  /** The report is the output of the last tool-output event. */
  lemma {:induction false} ReportIsLastToolOutput(events: seq<Event>, j: nat)
    requires j < |events| && events[j].RunItemEvent? && events[j].item.ToolOutput?
    requires forall k :: j < k < |events| ==> !(events[k].RunItemEvent? && events[k].item.ToolOutput?)
    ensures FinalOutput(events) == events[j].item.output
    decreases |events|
  {
    var n := |events| - 1;
    if j < n {
      ReportIsLastToolOutput(events[..n], j);
    }
  }

  /** Without a tool output the report is empty. */
  lemma {:induction false} NoToolOutputEmptyReport(events: seq<Event>)
    requires forall k :: 0 <= k < |events| ==> !(events[k].RunItemEvent? && events[k].item.ToolOutput?)
    ensures FinalOutput(events) == ""
    decreases |events|
  {
    if |events| > 0 {
      NoToolOutputEmptyReport(events[..|events| - 1]);
    }
  }

  /** The notifications text only grows: each yield's text extends the previous one
      by a newline and the new notification. */
  lemma NotificationsOnlyGrow(notes: seq<string>, k: nat)
    requires 0 < k < |notes|
    ensures Join("\n", notes[..k + 1]) == Join("\n", notes[..k]) + "\n" + notes[k]
  {
    assert notes[..k + 1] == notes[..k] + [notes[k]];
    JoinSnoc("\n", notes[..k], notes[k]);
  }
}
