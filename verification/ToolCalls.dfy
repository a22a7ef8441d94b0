/** Two ways to report the progress of a tool call: `ToolCallReporter` sends its whole state
    with every update, `ToolCallState` sends the changed fields only. A client folds the
    notifications into one view; a field that is absent leaves the view unchanged. */
module ToolCalls {
  import opened Lists
  import opened Options

  type Json = string

  datatype Status = Pending | InProgress | Completed | Failed

  datatype Location = Location(path: string, line: Option<nat>)

  datatype LocationArg = PathString(path: string) | At(location: Location)

  datatype Content = TextContent(text: string) | OtherContent(payload: Json)

  datatype ContentArg = PlainText(text: string) | Block(content: Content)

  function ToLocation(a: LocationArg): seq<Location> {
    [match a case PathString(p) => Location(p, None) case At(l) => l]
  }

  function ToContent(a: ContentArg): seq<Content> {
    [match a case PlainText(t) => TextContent(t) case Block(c) => c]
  }

  function Locations(args: seq<LocationArg>): seq<Location> { FlatMap(ToLocation, args) }

  function Contents(args: seq<ContentArg>): seq<Content> { FlatMap(ToContent, args) }

  /** `xs or None`. */
  function OrNone<T>(xs: seq<T>): Option<seq<T>> {
    if xs == [] then None else Some(xs)
  }

  datatype Notification =
    | Start(title: string, kind: Option<string>, locations: Option<seq<Location>>,
            content: Option<seq<Content>>, rawInput: Option<Json>)
    | Progress(newTitle: Option<string>, newStatus: Option<Status>, newKind: Option<string>,
               newLocations: Option<seq<Location>>, newContent: Option<seq<Content>>, newOutput: Option<Json>)

  // ---- ACPNotifications -------------------------------------------------------

  /** `tool_call_start`: absent content is sent as an empty list, the status is pending. */
  function StartMessage(title: string, kind: Option<string>, locations: Option<seq<Location>>,
                        content: Option<seq<ContentArg>>, rawInput: Option<Json>): Notification {
    Start(title, kind, locations, Some(Contents(content.Or([]))), rawInput)
  }

  /** `tool_call_progress`: absent content is sent as an empty list as well. */
  function ProgressMessage(status: Status, title: string, kind: Option<string>, locations: Option<seq<Location>>,
                           content: Option<seq<ContentArg>>, output: Option<Json>): Notification {
    Progress(Some(title), Some(status), kind, locations, Some(Contents(content.Or([]))), output)
  }

  /** `tool_call_update`: only what is given is sent, and empty content counts as not given. */
  function UpdateMessage(title: Option<string>, status: Option<Status>, kind: Option<string>,
                         locations: Option<seq<Location>>, content: Option<seq<ContentArg>>,
                         output: Option<Json>): Notification
  {
    Progress(title, status, kind, locations,
             if content.Or([]) != [] then Some(Contents(content.value)) else None, output)
  }

  // ---- The client --------------------------------------------------------------

  datatype View = View(title: string, status: Status, kind: Option<string>, locations: seq<Location>,
                       content: seq<Content>, rawInput: Option<Json>, rawOutput: Option<Json>)

  function Orelse<T>(a: Option<T>, b: Option<T>): Option<T> {
    if a.Some? then a else b
  }

  /** A client that has not seen the start of the call has no view of it. */
  function Apply(v: Option<View>, n: Notification): Option<View> {
    match n
    case Start(title, kind, locations, content, rawInput) =>
      Some(View(title, Pending, kind, locations.Or([]), content.Or([]), rawInput, None))
    case Progress(title, status, kind, locations, content, output) =>
      if v.None? then None
      else
        var w := v.value;
        Some(View(title.Or(w.title), status.Or(w.status), Orelse(kind, w.kind), locations.Or(w.locations),
                  content.Or(w.content), w.rawInput, Orelse(output, w.rawOutput)))
  }

  function Fold(v: Option<View>, log: seq<Notification>): Option<View>
    decreases |log|
  {
    if log == [] then v else Fold(Apply(v, log[0]), log[1..])
  }

  // ---- ToolCallReporter ----------------------------------------------------------

  datatype Report = Report(title: string, kind: Option<string>, status: Status, locations: seq<Location>,
                           content: seq<ContentArg>, rawInput: Option<Json>, rawOutput: Option<Json>, started: bool)

  datatype Change = Change(title: Option<string>, status: Option<Status>, kind: Option<string>, message: Option<string>,
                           rawOutput: Option<Json>, locations: Option<seq<LocationArg>>,
                           content: Option<seq<ContentArg>>, replace: bool)

  const NO_CHANGE := Change(None, None, None, None, None, None, None, false)

  function ReportStart(r: Report): (Report, seq<Notification>) {
    if r.started then (r, [])
    else (r.(started := true),
          [StartMessage(r.title, r.kind, OrNone(r.locations), OrNone(r.content), r.rawInput)])
  }

  /** The stored state after an update. */
  function Stored(r: Report, u: Change): Report {
    var locations :=
      if u.locations.None? then r.locations
      else if u.replace then Locations(u.locations.value)
      else r.locations + Locations(u.locations.value);
    var content :=
      if u.content.None? then r.content
      else if u.replace then u.content.value
      else r.content + u.content.value;
    r.(title := u.title.Or(r.title),
       status := u.status.Or(r.status),
       kind := Orelse(u.kind, r.kind),
       rawOutput := Orelse(u.rawOutput, r.rawOutput),
       locations := locations,
       content := if u.message.Some? then content + [PlainText(u.message.value)] else content)
  }

  function ReportUpdate(r: Report, u: Change): (Report, seq<Notification>) {
    var (r0, first) := ReportStart(r);
    var r' := Stored(r0, u);
    (r', first + [ProgressMessage(r'.status, r'.title, r'.kind, OrNone(r'.locations), OrNone(r'.content),
      r'.rawOutput)])
  }

  function ReportUpdates(r: Report, us: seq<Change>): (Report, seq<Notification>)
    decreases |us|
  {
    if us == [] then (r, [])
    else
      var (r1, first) := ReportUpdate(r, us[0]);
      var (r2, rest) := ReportUpdates(r1, us[1..]);
      (r2, first + rest)
  }

  class Channel {
    var log: seq<Notification>

    constructor ()
      ensures log == []
    {
      log := [];
    }

    method Send(n: Notification)
      modifies this
      ensures log == old(log) + [n]
    {
      log := log + [n];
    }
  }

  class ToolCallReporter {
    const channel: Channel
    var title: string
    var kind: Option<string>
    var status: Status
    var locations: seq<Location>
    var content: seq<ContentArg>
    const rawInput: Option<Json>
    var rawOutput: Option<Json>
    var started: bool

    function State(): Report
      reads this
    {
      Report(title, kind, status, locations, content, rawInput, rawOutput, started)
    }

    constructor (channel: Channel, initial: Report)
      requires !initial.started
      ensures State() == initial && this.channel == channel
    {
      this.channel := channel;
      title, kind, status := initial.title, initial.kind, initial.status;
      locations, content := initial.locations, initial.content;
      rawInput, rawOutput, started := initial.rawInput, initial.rawOutput, false;
    }

    method Begin()
      modifies this, channel
      ensures State() == ReportStart(old(State())).0
      ensures channel.log == old(channel.log) + ReportStart(old(State())).1
    {
      if started {
        return;
      }
      channel.Send(StartMessage(title, kind, OrNone(locations), OrNone(content), rawInput));
      started := true;
    }

    /** The part of `update` that changes the stored fields. */
    method Store(u: Change)
      modifies this
      ensures State() == Stored(old(State()), u) && status == u.status.Or(old(status))
      ensures content == (if u.replace && u.content.Some? then [] else old(content)) + u.content.Or([])
                         + if u.message.Some? then [PlainText(u.message.value)] else []
      ensures locations == (if u.replace && u.locations.Some? then [] else old(locations))
                           + Locations(u.locations.Or([]))
    {
      assert Locations([]) == [];
      hide Locations;
      title, status := u.title.Or(title), u.status.Or(status);
      kind, rawOutput := Orelse(u.kind, kind), Orelse(u.rawOutput, rawOutput);
      if u.locations.Some? {
        var normalized := Locations(u.locations.value);
        if u.replace {
          locations := normalized;
        } else {
          locations := locations + normalized;
        }
      }
      if u.content.Some? {
        if u.replace {
          content := u.content.value;
        } else {
          content := content + u.content.value;
        }
      }
      if u.message.Some? {
        content := content + [PlainText(u.message.value)];
      }
    }

    method Update(u: Change)
      modifies this, channel
      ensures State() == ReportUpdate(old(State()), u).0
      ensures channel.log == old(channel.log) + ReportUpdate(old(State()), u).1
      ensures status == u.status.Or(old(status))
      ensures content == (if u.replace && u.content.Some? then [] else old(content)) + u.content.Or([])
                         + if u.message.Some? then [PlainText(u.message.value)] else []
    {
      hide FlatMap, Stored, StartMessage, ProgressMessage;
      Begin();
      Store(u);
      channel.Send(ProgressMessage(status, title, kind, OrNone(locations), OrNone(content), rawOutput));
    }

    method Complete(message: Option<string>, output: Option<Json>)
      modifies this, channel
      ensures var u := NO_CHANGE.(status := Some(Completed), message := message, rawOutput := output);
              State() == ReportUpdate(old(State()), u).0 &&
              channel.log == old(channel.log) + ReportUpdate(old(State()), u).1
      ensures status == Completed
      ensures content == old(content) + if message.Some? then [PlainText(message.value)] else []
    {
      hide ReportUpdate;
      Update(NO_CHANGE.(status := Some(Completed), message := message, rawOutput := output));
    }

    method Fail(error: Option<string>, output: Option<Json>)
      modifies this, channel
      ensures var u := NO_CHANGE.(status := Some(Failed), message := error, rawOutput := output);
              State() == ReportUpdate(old(State()), u).0 &&
              channel.log == old(channel.log) + ReportUpdate(old(State()), u).1
      ensures status == Failed
      ensures content == old(content) + if error.Some? then [PlainText(error.value)] else []
    {
      hide ReportUpdate;
      Update(NO_CHANGE.(status := Some(Failed), message := error, rawOutput := output));
    }

    /** `__aexit__`; `exception` is the text of the exception that left the block, if any. */
    method Exit(exception: Option<string>)
      modifies this, channel
      ensures var us := ExitUpdates(old(State()), exception);
              State() == ReportUpdates(old(State()), us).0 &&
              channel.log == old(channel.log) + ReportUpdates(old(State()), us).1
      ensures status == (if exception.Some? then Failed
                         else if old(status) in {Completed, Failed} then old(status) else Completed)
      ensures content == old(content) + if exception.Some? then [PlainText(exception.value)] else []
    {
      hide ReportUpdate;
      ghost var us := ExitUpdates(State(), exception);
      assert us != [] ==> us[1..] == [];
      if exception.Some? {
        Fail(exception, None);
      } else if !(status in {Completed, Failed}) {
        Complete(None, None);
      }
    }
  }

  function ExitUpdates(r: Report, exception: Option<string>): seq<Change> {
    if exception.Some? then [NO_CHANGE.(status := Some(Failed), message := exception)]
    else if r.status in {Completed, Failed} then []
    else [NO_CHANGE.(status := Some(Completed))]
  }

  // ---- ToolCallState --------------------------------------------------------------

  datatype Delta = Delta(title: string, kind: string, rawInput: Option<Json>, started: bool, hasContent: bool)

  function DeltaStart(d: Delta): (Delta, seq<Notification>) {
    if d.started then (d, [])
    else (d.(started := true), [StartMessage(d.title, Some(d.kind), None, None, d.rawInput)])
  }

  function DeltaMessages(u: Change): seq<Notification> {
    if u.title.None? && u.status.None? && u.kind.None? && u.rawOutput.None?
       && u.content.Or([]) == [] && u.locations.Or([]) == [] then []
    else [UpdateMessage(u.title, u.status, u.kind,
                        if u.locations.Or([]) != [] then Some(Locations(u.locations.value)) else None,
                        if u.content.Or([]) != [] then u.content else None, u.rawOutput)]
  }

  function DeltaUpdate(d: Delta, u: Change): (Delta, seq<Notification>) {
    var (d0, first) := DeltaStart(d);
    (d0.(hasContent := d.hasContent || u.content.Or([]) != []), first + DeltaMessages(u))
  }

  function DeltaUpdates(d: Delta, us: seq<Change>): (Delta, seq<Notification>)
    decreases |us|
  {
    if us == [] then (d, [])
    else
      var (d1, first) := DeltaUpdate(d, us[0]);
      var (d2, rest) := DeltaUpdates(d1, us[1..]);
      (d2, first + rest)
  }

  class ToolCallState {
    const channel: Channel
    const initialTitle: string
    const initialKind: string
    const rawInput: Option<Json>
    var started: bool
    var hasContent: bool

    function State(): Delta
      reads this
    {
      Delta(initialTitle, initialKind, rawInput, started, hasContent)
    }

    constructor (channel: Channel, title: string, kind: string, rawInput: Option<Json>)
      ensures State() == Delta(title, kind, rawInput, false, false) && this.channel == channel
    {
      this.channel := channel;
      initialTitle, initialKind, this.rawInput := title, kind, rawInput;
      started, hasContent := false, false;
    }

    method Begin()
      modifies this, channel
      ensures State() == DeltaStart(old(State())).0
      ensures channel.log == old(channel.log) + DeltaStart(old(State())).1
    {
      if started {
        return;
      }
      channel.Send(StartMessage(initialTitle, Some(initialKind), None, None, rawInput));
      started := true;
    }

    /** The fields are collected one by one, and nothing is sent when none is given. */
    method Update(title: Option<string>, status: Option<Status>, kind: Option<string>, content: Option<seq<ContentArg>>,
                  locations: Option<seq<LocationArg>>, output: Option<Json>)
      modifies this, channel
      ensures var u := Change(title, status, kind, None, output, locations, content, true);
              State() == DeltaUpdate(old(State()), u).0 &&
              channel.log == old(channel.log) + DeltaUpdate(old(State()), u).1
    {
      Begin();
      var given := false;
      var sentContent: Option<seq<ContentArg>> := None;
      var sentLocations: Option<seq<Location>> := None;
      if title.Some? || status.Some? || kind.Some? || output.Some? {
        given := true;
      }
      if content.Some? && content.value != [] {
        sentContent := content;
        given := true;
        hasContent := true;
      }
      if locations.Some? && locations.value != [] {
        sentLocations := Some(Locations(locations.value));
        given := true;
      }
      if given {
        channel.Send(UpdateMessage(title, status, kind, sentLocations, sentContent, output));
      }
    }

    method Complete(output: Option<Json>, content: Option<seq<ContentArg>>, title: Option<string>)
      modifies this, channel
      ensures var u := Change(title, Some(Completed), None, None, output, None, content, true);
              State() == DeltaUpdate(old(State()), u).0 &&
              channel.log == old(channel.log) + DeltaUpdate(old(State()), u).1
      ensures started && channel.log != [] && Last(channel.log).Progress?
              && Last(channel.log).newStatus == Some(Completed) && Last(channel.log).newTitle == title
    {
      Update(title, Some(Completed), None, content, None, output);
    }
  }
}
