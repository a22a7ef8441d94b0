/** What the client sees of a tool call, under either way of reporting. */
module ToolCallViews {
  import opened Lists
  import opened ToolCalls
  import opened Options

  lemma {:induction false} FoldAppend(v: Option<View>, a: seq<Notification>, b: seq<Notification>)
    ensures Fold(v, a + b) == Fold(Fold(v, a), b)
    decreases |a|
  {
    if a == [] {
      assert a + b == b;
    } else {
      FoldAppend(Apply(v, a[0]), a[1..], b);
      assert (a + b)[1..] == a[1..] + b;
    }
  }

  lemma FoldOne(v: Option<View>, n: Notification)
    ensures Fold(v, [n]) == Apply(v, n)
  {
    assert [n][1..] == [];
  }

  lemma {:induction false} ContentsLength(args: seq<ContentArg>)
    ensures |Contents(args)| == |args|
  {
    if args != [] {
      ContentsLength(args[1..]);
    }
  }

  lemma {:induction false} LocationsLength(args: seq<LocationArg>)
    ensures |Locations(args)| == |args|
  {
    if args != [] {
      LocationsLength(args[1..]);
    }
  }

  // ---- The reporter's mirror --------------------------------------------------------

  /** What the client knows of a reporter at any time. Status, output and locations can lag. */
  ghost predicate Tracks(v: Option<View>, r: Report) {
    if !r.started then v.None?
    else
      && v.Some?
      && v.value.title == r.title && v.value.kind == r.kind && v.value.rawInput == r.rawInput
      && v.value.content == Contents(r.content)
      && (v.value.rawOutput.None? || v.value.rawOutput == r.rawOutput)
  }

  /** The locations the client shows for a reporter that it tracks. */
  function Shown(v: Option<View>, r: Report): seq<Location> {
    if v.Some? then v.value.locations else r.locations
  }

  lemma StartTracks(v: Option<View>, r: Report)
    requires Tracks(v, r)
    ensures Tracks(Fold(v, ReportStart(r).1), ReportStart(r).0)
    ensures Shown(Fold(v, ReportStart(r).1), ReportStart(r).0) == Shown(v, r)
    ensures !r.started ==> Fold(v, ReportStart(r).1).value.status == Pending
  {
    if !r.started {
      FoldOne(v, ReportStart(r).1[0]);
    }
  }

  /** One update: every field agrees afterwards, except that an empty list of locations is not
      sent, so that the client keeps showing the last ones. */
  lemma UpdateTracks(v: Option<View>, r: Report, u: Change)
    requires Tracks(v, r)
    ensures var (r', log) := ReportUpdate(r, u);
            var v' := Fold(v, log);
            && r'.started && Tracks(v', r')
            && v'.value.status == r'.status && v'.value.rawOutput == r'.rawOutput
            && v'.value.locations == if r'.locations != [] then r'.locations else Shown(v, r)
  {
    var (r0, first) := ReportStart(r);
    var (r', log) := ReportUpdate(r, u);
    StartTracks(v, r);
    var n := log[|first|];
    assert log == first + [n];
    FoldAppend(v, first, [n]);
    FoldOne(Fold(v, first), n);
    ContentsLength([]);
    hide FlatMap, Fold;
  }

  /** Some state of this run had locations. */
  predicate EverLocated(r: Report, us: seq<Change>)
    decreases |us|
  {
    r.locations != [] || (us != [] && EverLocated(ReportUpdate(r, us[0]).0, us[1..]))
  }

  lemma {:induction false} UpdatesTrack(v: Option<View>, r: Report, us: seq<Change>)
    requires Tracks(v, r) && us != []
    requires r.locations != [] ==> Shown(v, r) == r.locations
    ensures var (r', log) := ReportUpdates(r, us);
            var v' := Fold(v, log);
            && r'.started && Tracks(v', r')
            && v'.value.status == r'.status && v'.value.rawOutput == r'.rawOutput
            && (r'.locations != [] ==> v'.value.locations == r'.locations)
            && (Shown(v, r) != [] || EverLocated(r, us) ==> v'.value.locations != [])
            && (Shown(v, r) == [] && !EverLocated(r, us) ==> v'.value.locations == [])
    decreases |us|
  {
    UpdateTracks(v, r, us[0]);
    var (r1, first) := ReportUpdate(r, us[0]);
    var (r2, rest) := ReportUpdates(r1, us[1..]);
    var v1 := Fold(v, first);
    FoldAppend(v, first, rest);
    assert EverLocated(r, us) == (r.locations != [] || EverLocated(r1, us[1..]));
    hide Fold, ReportUpdate, Contents;
    if |us| == 1 {
      assert EverLocated(r1, []) == (r1.locations != []);
      assert us[1..] == [];
      FoldNothing(v1);
    } else {
      UpdatesTrack(v1, r1, us[1..]);
    }
  }

  lemma FoldNothing(v: Option<View>)
    ensures Fold(v, []) == v
  {
  }

  /** Whether some locations are left after the updates: each list that is given replaces the
      ones before or adds to them. */
  predicate StillLocated(located: bool, us: seq<Change>)
    decreases |us|
  {
    if us == [] then located
    else
      var u := us[0];
      StillLocated(if u.locations.None? then located else u.locations.value != [] || (located && !u.replace), us[1..])
  }

  /** Locations were there at first, or some update gave some. */
  ghost predicate GaveLocations(r: Report, us: seq<Change>) {
    r.locations != [] || exists u :: u in us && u.locations.Or([]) != []
  }

  lemma StoredLocations(r: Report, u: Change)
    ensures var located := ReportUpdate(r, u).0.locations != [];
            && (located <==> if u.locations.None? then r.locations != []
                             else u.locations.value != [] || (r.locations != [] && !u.replace))
            && (r.locations != [] || located <==> r.locations != [] || u.locations.Or([]) != [])
  {
    LocationsLength(u.locations.Or([]));
    hide Locations;
  }

  lemma {:induction false} LocationsAreGiven(r: Report, us: seq<Change>)
    ensures ReportUpdates(r, us).0.locations != [] <==> StillLocated(r.locations != [], us)
    ensures EverLocated(r, us) <==> GaveLocations(r, us)
    decreases |us|
  {
    if us != [] {
      StoredLocations(r, us[0]);
      LocationsAreGiven(ReportUpdate(r, us[0]).0, us[1..]);
      hide ReportUpdate;
      assert forall u :: u in us <==> u == us[0] || u in us[1..];
    }
  }

  /** Main result for the reporter: after every update, in any run from any initial state, the
      client's title, status, kind, content, input and output are the reporter's fields. Its
      locations are too, exactly if the updates leave some locations, or never gave any. */
  lemma ReporterIsMirrored(r: Report, us: seq<Change>)
    requires !r.started && us != []
    ensures var (r', log) := ReportUpdates(r, us);
            var v := Fold(None, log);
            && v.Some?
            && v.value == View(r'.title, r'.status, r'.kind, v.value.locations, Contents(r'.content), r'.rawInput,
              r'.rawOutput)
            && (v.value.locations == r'.locations <==> StillLocated(r.locations != [], us) || !GaveLocations(r, us))
  {
    hide Fold, ReportUpdates, ReportUpdate, Contents, StillLocated, GaveLocations;
    UpdatesTrack(None, r, us);
    LocationsAreGiven(r, us);
  }

  /** For instance, replacing a location by none leaves the client with the old one. */
  lemma StaleLocations(r: Report, l: Location)
    requires !r.started && r.locations == [l]
    ensures var us := [NO_CHANGE.(locations := Some([]), replace := true)];
            var (r', log) := ReportUpdates(r, us);
            var v := Fold(None, log);
            r'.locations == [] && v.Some? && v.value.locations != []
  {
    var us := [NO_CHANGE.(locations := Some([]), replace := true)];
    ReporterIsMirrored(r, us);
    LocationsAreGiven(r, us);
    assert us[1..] == [];
    hide Fold, ReportUpdates, Contents;
  }

  /** The start message is sent exactly once, and before every progress message. */
  lemma {:induction false} StartIsSentOnce(r: Report, us: seq<Change>)
    requires us != []
    ensures var log := ReportUpdates(r, us).1;
            && |log| == |us| + (if r.started then 0 else 1)
            && forall i | 0 <= i < |log| :: log[i].Start? <==> !r.started && i == 0
    decreases |us|
  {
    hide Stored, StartMessage, ProgressMessage, FlatMap;
    var (r1, first) := ReportUpdate(r, us[0]);
    UpdateStarts(r, us[0]);
    if |us| == 1 {
      assert us[1..] == [];
      assert ReportUpdates(r, us).1 == first + [] == first;
    } else {
      StartIsSentOnce(r1, us[1..]);
      assert ReportUpdates(r, us).1 == first + ReportUpdates(r1, us[1..]).1;
    }
  }

  lemma UpdateStarts(r: Report, u: Change)
    ensures var (r', log) := ReportUpdate(r, u);
            && r'.started && |log| == (if r.started then 1 else 2)
            && log[|log| - 1].Progress? && (!r.started ==> log[0].Start?)
  {
    hide FlatMap;
  }

  /** `async with reporter: ...`: the messages of a whole block. */
  function BlockLog(r: Report, us: seq<Change>, exception: Option<string>): seq<Notification> {
    var (r0, first) := ReportStart(r);
    var (r1, middle) := ReportUpdates(r0, us);
    first + middle + ReportUpdates(r1, ExitUpdates(r1, exception)).1
  }

  /** Leaving the block shows the client a final status, with one exception: a reporter that
      is created with a final status and never updated stays pending for the client. */
  lemma BlockEndsFinal(r: Report, us: seq<Change>, exception: Option<string>)
    requires !r.started
    ensures var v := Fold(None, BlockLog(r, us, exception));
            && v.Some?
            && (v.value.status in {Completed, Failed} <==>
                  exception.Some? || us != [] || !(r.status in {Completed, Failed}))
  {
    var (r0, first) := ReportStart(r);
    StartTracks(None, r);
    var v0 := Fold(None, first);
    var (r1, middle) := ReportUpdates(r0, us);
    FoldAppend(None, first, middle);
    var v1 := Fold(v0, middle);
    if us != [] {
      UpdatesTrack(v0, r0, us);
    } else {
      FoldNothing(v0);
    }
    var last := ExitUpdates(r1, exception);
    var (r2, end) := ReportUpdates(r1, last);
    FoldAppend(None, first + middle, end);
    hide Fold, Tracks, ReportUpdate, FlatMap, Stored;
    if last != [] {
      UpdatesTrack(v1, r1, last);
      ExitStatus(r1, exception);
    } else {
      FoldNothing(v1);
    }
  }

  lemma ExitStatus(r: Report, exception: Option<string>)
    ensures ReportUpdates(r, ExitUpdates(r, exception)).0.status in {Completed, Failed}
  {
    var us := ExitUpdates(r, exception);
    if us != [] {
      assert us[1..] == [];
      hide FlatMap, StartMessage, ProgressMessage;
      var r1 := ReportUpdate(r, us[0]).0;
      assert ReportUpdates(r1, []).0 == r1;
    }
  }

  // ---- Deltas against full states ------------------------------------------------------

  /** An update that both kinds of reporting can express. */
  predicate ReplaceStyle(u: Change) { u.replace && u.message.None? }

  function LastGiven(us: seq<Change>): Option<seq<ContentArg>> {
    if us == [] then None else Orelse(LastGiven(us[1..]), us[0].content)
  }

  function LastNonEmpty(us: seq<Change>): Option<seq<ContentArg>> {
    if us == [] then None
    else Orelse(LastNonEmpty(us[1..]), if us[0].content.Or([]) != [] then us[0].content else None)
  }

  /** The content given last is the empty list, and content was given before. */
  predicate EndsCleared(us: seq<Change>) {
    LastGiven(us) == Some([]) && exists u | u in us :: u.content.Or([]) != []
  }

  lemma {:induction false} LastNonEmptyFacts(us: seq<Change>)
    ensures LastNonEmpty(us).Some? <==> exists u | u in us :: u.content.Or([]) != []
    ensures LastNonEmpty(us).Some? ==> LastNonEmpty(us).value != [] && LastGiven(us).Some?
    ensures LastGiven(us).Some? && LastGiven(us).value != [] ==> LastNonEmpty(us) == LastGiven(us)
  {
    if us != [] {
      LastNonEmptyFacts(us[1..]);
      assert forall u :: u in us <==> u == us[0] || u in us[1..];
    }
  }

  predicate CarriesContent(n: Notification) { n.Progress? && n.newContent.Some? }

  /** `has_content` says whether some update carried content. */
  lemma {:induction false} HasContentIffSent(d: Delta, us: seq<Change>)
    ensures var (d', log) := DeltaUpdates(d, us);
            d'.hasContent <==> d.hasContent || exists n :: n in log && CarriesContent(n)
    decreases |us|
  {
    hide FlatMap;
    if us != [] {
      var (d1, first) := DeltaUpdate(d, us[0]);
      var (d2, rest) := DeltaUpdates(d1, us[1..]);
      HasContentIffSent(d1, us[1..]);
      var changes := DeltaMessages(us[0]);
      assert first == DeltaStart(d).1 + changes;
      assert forall n | n in DeltaStart(d).1 :: !CarriesContent(n);
      assert us[0].content.Or([]) != [] ==> CarriesContent(changes[0]) && changes[0] in first;
      hide DeltaUpdate, DeltaStart, DeltaMessages;
      assert forall n :: n in first + rest <==> n in first || n in rest;
    }
  }

  /** The two views agree, apart from the content. */
  ghost predicate SameButContent(full: Option<View>, delta: Option<View>, r: Report, d: Delta) {
    && r.started == d.started && Tracks(full, r)
    && (if !r.started then delta.None? && r.title == d.title && r.kind == Some(d.kind) && r.rawInput == d.rawInput
                           && r.status == Pending && r.locations == [] && r.rawOutput.None?
        else delta.Some? && full.value.(content := delta.value.content) == delta.value
             && full.value.status == r.status && full.value.rawOutput == r.rawOutput
             && (r.locations != [] ==> full.value.locations == r.locations))
  }

  function ShownContent(v: Option<View>): seq<Content> {
    if v.Some? then v.value.content else []
  }

  lemma DeltaApplies(v: Option<View>, u: Change)
    requires v.Some?
    ensures var w := v.value;
            Fold(v, DeltaMessages(u)) ==
            Some(View(u.title.Or(w.title), u.status.Or(w.status), Orelse(u.kind, w.kind),
                      if u.locations.Or([]) != [] then Locations(u.locations.value) else w.locations,
                      if u.content.Or([]) != [] then Contents(u.content.value) else w.content,
                      w.rawInput, Orelse(u.rawOutput, w.rawOutput)))
  {
    hide Locations, Contents;
    if DeltaMessages(u) != [] {
      FoldOne(v, DeltaMessages(u)[0]);
    } else {
      FoldNothing(v);
    }
  }

  lemma BothStart(full: Option<View>, delta: Option<View>, r: Report, d: Delta)
    requires SameButContent(full, delta, r, d)
    requires !r.started ==> r.content == []
    ensures SameButContent(Fold(full, ReportStart(r).1), Fold(delta, DeltaStart(d).1), ReportStart(r).0,
              DeltaStart(d).0)
    ensures ReportStart(r).0.started && DeltaStart(d).0.started
    ensures ShownContent(Fold(delta, DeltaStart(d).1)) == ShownContent(delta)
  {
    StartTracks(full, r);
    if !r.started {
      FoldOne(full, ReportStart(r).1[0]);
      FoldOne(delta, DeltaStart(d).1[0]);
      ContentsLength([]);
      hide Contents;
    } else {
      FoldNothing(full);
      FoldNothing(delta);
    }
  }

  lemma StepAgrees(full: Option<View>, delta: Option<View>, r: Report, d: Delta, u: Change)
    requires SameButContent(full, delta, r, d) && ReplaceStyle(u)
    requires !r.started ==> r.content == []
    ensures var (r', log) := ReportUpdate(r, u);
            var (d', changes) := DeltaUpdate(d, u);
            && r'.started && r'.content == u.content.Or(r.content)
            && SameButContent(Fold(full, log), Fold(delta, changes), r', d')
            && ShownContent(Fold(delta, changes)) ==
                 if u.content.Or([]) != [] then Contents(u.content.value) else ShownContent(delta)
  {
    BothStart(full, delta, r, d);
    UpdateTracks(full, r, u);
    var (r0, first) := ReportStart(r);
    var (d0, first') := DeltaStart(d);
    var (r', log) := ReportUpdate(r, u);
    var v0 := Fold(full, first);
    var n := log[|first|];
    assert log == first + [n];
    FoldAppend(full, first, [n]);
    FoldOne(v0, n);
    FoldAppend(delta, first', DeltaMessages(u));
    DeltaApplies(Fold(delta, first'), u);
    LocationsLength(u.locations.Or([]));
    hide Fold, Contents, Locations, ReportStart, DeltaStart, DeltaMessages;
  }

  lemma {:induction false} RunAgrees(full: Option<View>, delta: Option<View>, r: Report, d: Delta, us: seq<Change>)
    requires SameButContent(full, delta, r, d)
    requires !r.started ==> r.content == []
    requires forall u | u in us :: ReplaceStyle(u)
    ensures var (r', log) := ReportUpdates(r, us);
            var (d', changes) := DeltaUpdates(d, us);
            && SameButContent(Fold(full, log), Fold(delta, changes), r', d')
            && (us != [] ==> r'.started)
            && r'.content == LastGiven(us).Or(r.content)
            && ShownContent(Fold(delta, changes)) ==
                 if LastNonEmpty(us).Some? then Contents(LastNonEmpty(us).value) else ShownContent(delta)
    decreases |us|
  {
    hide Fold, SameButContent, Contents, ReportUpdate, DeltaUpdate, ReplaceStyle;
    if us == [] {
      FoldNothing(full);
      FoldNothing(delta);
    } else {
      assert us[0] in us;
      assert forall u | u in us[1..] :: u in us;
      StepAgrees(full, delta, r, d, us[0]);
      var (r1, log) := ReportUpdate(r, us[0]);
      var (d1, changes) := DeltaUpdate(d, us[0]);
      assert LastGiven(us).Or(r.content) == LastGiven(us[1..]).Or(us[0].content.Or(r.content));
      FoldAppend(full, log, ReportUpdates(r1, us[1..]).1);
      FoldAppend(delta, changes, DeltaUpdates(d1, us[1..]).1);
      RunAgrees(Fold(full, log), Fold(delta, changes), r1, d1, us[1..]);
    }
  }

  /** Main result: with the same title, kind and input, and the same replacing updates, the view
      folded from full states equals the view folded from deltas, if and only if the updates
      do not end by replacing content that was given with the empty list. In that case the
      full state clears the client's content, and the delta leaves it. */
  lemma DeltaAgreesWithFullState(title: string, kind: string, rawInput: Option<Json>, us: seq<Change>)
    requires forall u | u in us :: ReplaceStyle(u)
    ensures var full := Fold(None,
              ReportUpdates(Report(title, Some(kind), Pending, [], [], rawInput, None, false), us).1);
            var delta := Fold(None, DeltaUpdates(Delta(title, kind, rawInput, false, false), us).1);
            && (full == delta <==> !EndsCleared(us))
            && (us != [] ==> full.Some? && delta.Some? && full.value.(content := delta.value.content) == delta.value)
  {
    var r := Report(title, Some(kind), Pending, [], [], rawInput, None, false);
    var d := Delta(title, kind, rawInput, false, false);
    RunAgrees(None, None, r, d, us);
    LastNonEmptyFacts(us);
    ContentsLength(LastGiven(us).Or([]));
    ContentsLength(LastNonEmpty(us).Or([]));
    hide Fold, Contents, ReportUpdates, DeltaUpdates;
  }

  /** For instance, content that is given and then cleared. */
  lemma ClearedContentDiffers(text: string)
    ensures var given := NO_CHANGE.(content := Some([PlainText(text)]), replace := true);
            var us := [given, NO_CHANGE.(content := Some([]), replace := true)];
            Fold(None, ReportUpdates(Report("t", Some("k"), Pending, [], [], None, None, false), us).1)
              != Fold(None, DeltaUpdates(Delta("t", "k", None, false, false), us).1)
  {
    var given := NO_CHANGE.(content := Some([PlainText(text)]), replace := true);
    var cleared := NO_CHANGE.(content := Some([]), replace := true);
    var us := [given, cleared];
    DeltaAgreesWithFullState("t", "k", None, us);
    hide Fold, ReportUpdates, DeltaUpdates;
    assert us[1..] == [cleared] && [cleared][1..] == [];
    assert LastGiven([]) == None && LastGiven([cleared]) == Some([]) && LastGiven(us) == Some([]);
    assert us[0] in us && us[0].content.Or([]) != [];
  }
}
