/** What a reporter stores, and what its client sees, after a whole run, told from the updates. */
module ToolCallRuns {
  import opened Lists
  import opened ToolCalls
  import opened ToolCallViews
  import opened Options

  // ---- What the updates give -----------------------------------------------------------

  function MessageOf(u: Change): seq<ContentArg> {
    match u.message case Some(text) => [PlainText(text)] case None => []
  }

  /** The content that an update gives, and its message directly behind it. */
  function Added(u: Change): seq<ContentArg> {
    (match u.content case Some(blocks) => blocks case None => []) + MessageOf(u)
  }

  function Place(a: LocationArg): Location {
    match a case PathString(path) => Location(path, None) case At(location) => location
  }

  function Placed(u: Change): seq<Location> {
    match u.locations
    case Some(places) => seq(|places|, i requires 0 <= i < |places| => Place(places[i]))
    case None => []
  }

  /** Content as clients get it: strings as text blocks. */
  function Rendered(args: seq<ContentArg>): seq<Content> {
    seq(|args|, i requires 0 <= i < |args| =>
      match args[i] case PlainText(text) => TextContent(text) case Block(content) => content)
  }

  predicate ReplacesContent(u: Change) { u.replace && u.content.Some? }

  predicate ReplacesLocations(u: Change) { u.replace && u.locations.Some? }

  /** The last update with property `p`. */
  function LastWhere(p: Change -> bool, us: seq<Change>): Option<nat> {
    if us == [] then None else if p(Last(us)) then Some(|us| - 1) else LastWhere(p, Init(us))
  }

  lemma {:induction false} LastWhereIsLast(p: Change -> bool, us: seq<Change>)
    ensures match LastWhere(p, us)
            case None => forall u | u in us :: !p(u)
            case Some(i) => i < |us| && p(us[i]) && forall j | i < j < |us| :: !p(us[j])
  {
    if us != [] && !p(Last(us)) {
      LastWhereIsLast(p, Init(us));
      assert us == Init(us) + [Last(us)];
    }
  }

  /** The value that the updates give last. */
  function LastOf<T>(field: Change -> Option<T>, us: seq<Change>): Option<T> {
    if us == [] then None else if field(Last(us)).Some? then field(Last(us)) else LastOf(field, Init(us))
  }

  /** What was given from the last replacing update on, in order; behind the initial content, if
      nothing replaced it. */
  function ContentAfter(initial: seq<ContentArg>, us: seq<Change>): seq<ContentArg> {
    match LastWhere(ReplacesContent, us)
    case None => initial + FlatMap(Added, us)
    case Some(i) => LastWhereIsLast(ReplacesContent, us); FlatMap(Added, us[i..])
  }

  function LocationsAfter(initial: seq<Location>, us: seq<Change>): seq<Location> {
    match LastWhere(ReplacesLocations, us)
    case None => initial + FlatMap(Placed, us)
    case Some(i) => LastWhereIsLast(ReplacesLocations, us); FlatMap(Placed, us[i..])
  }

  function TitleOf(u: Change): Option<string> { u.title }

  function StatusOf(u: Change): Option<Status> { u.status }

  function KindOf(u: Change): Option<string> { u.kind }

  function OutputOf(u: Change): Option<Json> { u.rawOutput }

  /** The fields after a run: title, status, kind and output as given last. */
  function FieldsAfter(r: Report, us: seq<Change>): Report {
    Report(LastOf(TitleOf, us).Or(r.title),
           if LastOf(KindOf, us).Some? then LastOf(KindOf, us) else r.kind,
           LastOf(StatusOf, us).Or(r.status),
           LocationsAfter(r.locations, us),
           ContentAfter(r.content, us),
           r.rawInput,
           if LastOf(OutputOf, us).Some? then LastOf(OutputOf, us) else r.rawOutput,
           r.started || us != [])
  }

  // ---- The stored fields ------------------------------------------------------------------

  /** Replacing or appending, one update at a time. */
  lemma LastUpdateAdds<T>(given: Change -> seq<T>, anew: Change -> bool, initial: seq<T>, us: seq<Change>, u: Change)
    ensures var all := us + [u];
            && (anew(u) ==> LastWhere(anew, all) == Some(|us|) && FlatMap(given, all[|us|..]) == given(u))
            && (!anew(u) ==>
                  LastWhere(anew, all) == LastWhere(anew, us)
                  && match LastWhere(anew, us)
                     case None => FlatMap(given, all) == FlatMap(given, us) + given(u)
                     case Some(i) => i <= |us| && FlatMap(given, all[i..]) == FlatMap(given, us[i..]) + given(u))
  {
    var all := us + [u];
    assert Init(all) == us && Last(all) == u && all[|us|..] == [u];
    LastWhereIsLast(anew, us);
    if anew(u) {
      FlatMapOne(given, u);
    } else {
      match LastWhere(anew, us)
      case None => FlatMapSnoc(given, us, u);
      case Some(i) =>
        assert all[i..] == us[i..] + [u];
        FlatMapSnoc(given, us[i..], u);
    }
  }

  lemma ContentSnoc(initial: seq<ContentArg>, us: seq<Change>, u: Change)
    ensures ContentAfter(initial, us + [u]) ==
            (if ReplacesContent(u) then [] else ContentAfter(initial, us)) + Added(u)
  {
    LastUpdateAdds(Added, ReplacesContent, initial, us, u);
    hide FlatMap, LastWhere, Added;
  }

  lemma LocationsSnoc(initial: seq<Location>, us: seq<Change>, u: Change)
    ensures LocationsAfter(initial, us + [u]) ==
            (if ReplacesLocations(u) then [] else LocationsAfter(initial, us)) + Placed(u)
  {
    LastUpdateAdds(Placed, ReplacesLocations, initial, us, u);
    hide FlatMap, LastWhere, Placed;
  }

  lemma LastOfSnoc<T>(field: Change -> Option<T>, us: seq<Change>, u: Change)
    ensures LastOf(field, us + [u]) == if field(u).Some? then field(u) else LastOf(field, us)
  {
    assert Init(us + [u]) == us;
  }

  lemma {:induction false} LocationsArePlaced(args: seq<LocationArg>)
    ensures Locations(args) == seq(|args|, i requires 0 <= i < |args| => Place(args[i]))
  {
    if args != [] {
      LocationsArePlaced(args[1..]);
    }
  }

  lemma {:induction false} ContentsAreRendered(args: seq<ContentArg>)
    ensures Contents(args) == Rendered(args)
  {
    if args != [] {
      ContentsAreRendered(args[1..]);
    }
  }

  lemma {:induction false} UpdatesSnoc(r: Report, us: seq<Change>, u: Change)
    ensures var (r1, log) := ReportUpdates(r, us);
            var (r2, last) := ReportUpdate(r1, u);
            ReportUpdates(r, us + [u]) == (r2, log + last)
    decreases |us|
  {
    hide ReportUpdate;
    if us == [] {
      assert us + [u] == [u] && [u][1..] == [];
      var (r2, last) := ReportUpdate(r, u);
      assert last + [] == [] + last;
    } else {
      assert (us + [u])[1..] == us[1..] + [u];
      var (r1, first) := ReportUpdate(r, us[0]);
      UpdatesSnoc(r1, us[1..], u);
      var (r2, middle) := ReportUpdates(r1, us[1..]);
      var (r3, last) := ReportUpdate(r2, u);
      assert first + (middle + last) == (first + middle) + last;
    }
  }

  lemma OneUpdate(r: Report, u: Change)
    ensures var r' := ReportUpdate(r, u).0;
            && r'.title == u.title.Or(r.title) && r'.status == u.status.Or(r.status)
            && r'.kind == (if u.kind.Some? then u.kind else r.kind) && r'.rawInput == r.rawInput
            && r'.rawOutput == (if u.rawOutput.Some? then u.rawOutput else r.rawOutput) && r'.started
            && r'.content == (if ReplacesContent(u) then [] else r.content) + Added(u)
            && r'.locations == (if ReplacesLocations(u) then [] else r.locations) + Placed(u)
  {
    LocationsArePlaced(u.locations.Or([]));
    hide Locations;
  }

  /** Main result for the stored fields: after any run they are what the updates gave. */
  lemma {:induction false} FieldsAfterRun(r: Report, us: seq<Change>)
    ensures ReportUpdates(r, us).0 == FieldsAfter(r, us)
    decreases |us|
  {
    hide ContentAfter, LocationsAfter, ReportUpdates, Added, Placed;
    if us == [] {
      NoUpdates(r);
    } else {
      var before, u := Init(us), Last(us);
      assert us == before + [u];
      FieldsAfterRun(r, before);
      UpdatesSnoc(r, before, u);
      OneUpdate(ReportUpdates(r, before).0, u);
      ContentSnoc(r.content, before, u);
      LocationsSnoc(r.locations, before, u);
      LastOfSnoc(TitleOf, before, u);
      LastOfSnoc(StatusOf, before, u);
      LastOfSnoc(KindOf, before, u);
      LastOfSnoc(OutputOf, before, u);
      hide LastOf, ReportUpdate;
    }
  }

  lemma NoUpdates(r: Report)
    ensures ReportUpdates(r, []) == (r, []) && FieldsAfter(r, []) == r
  {
  }

  // ---- The client ---------------------------------------------------------------------------

  /** The locations that the client shows: those after the last update that left some. */
  function LastShown(initial: seq<Location>, us: seq<Change>): seq<Location> {
    if us == [] || LocationsAfter(initial, us) != [] then LocationsAfter(initial, us)
    else LastShown(initial, Init(us))
  }

  lemma {:induction false} RunShows(r: Report, us: seq<Change>)
    requires !r.started
    ensures var (r', log) := ReportUpdates(r, us);
            var v := Fold(None, log);
            && Tracks(v, r') && Shown(v, r') == LastShown(r.locations, us)
            && (us != [] ==> v.Some? && v.value.status == r'.status && v.value.rawOutput == r'.rawOutput)
    decreases |us|
  {
    hide Tracks, LocationsAfter, ReportUpdates, ReportUpdate, Fold;
    FieldsAfterRun(r, us);
    if us == [] {
      NoUpdates(r);
      FoldNothing(None);
      UnseenTracks(r);
    } else {
      var before, u := Init(us), Last(us);
      assert us == before + [u];
      RunShows(r, before);
      UpdatesSnoc(r, before, u);
      var (r1, log) := ReportUpdates(r, before);
      var v := Fold(None, log);
      FoldAppend(None, log, ReportUpdate(r1, u).1);
      UpdateTracks(v, r1, u);
      TracksSome(Fold(v, ReportUpdate(r1, u).1), ReportUpdate(r1, u).0);
    }
  }

  lemma UnseenTracks(r: Report)
    ensures !r.started ==> Tracks(None, r)
  {
  }

  lemma TracksSome(v: Option<View>, r: Report)
    requires Tracks(v, r) && r.started
    ensures v.Some? && v.value.title == r.title && v.value.kind == r.kind && v.value.rawInput == r.rawInput
    ensures v.value.content == Contents(r.content)
  {
  }

  /** Main result for the client: after any run it sees the title, status, kind and output given
      last, the content given since the last replacement, and the locations after the last
      update that left some. */
  lemma ClientSeesRun(r: Report, us: seq<Change>)
    requires !r.started && us != []
    ensures var f := FieldsAfter(r, us);
            Fold(None, ReportUpdates(r, us).1) ==
              Some(View(f.title, f.status, f.kind, LastShown(r.locations, us), Rendered(ContentAfter(r.content, us)),
                        r.rawInput, f.rawOutput))
  {
    FieldsAfterRun(r, us);
    RunShows(r, us);
    hide Tracks, Fold, ReportUpdates, ContentAfter, LocationsAfter, LastShown, LastOf, Contents, Rendered;
    TracksSome(Fold(None, ReportUpdates(r, us).1), ReportUpdates(r, us).0);
    ContentsAreRendered(ContentAfter(r.content, us));
  }

  // ---- Whole blocks -----------------------------------------------------------------------------

  /** What leaving the block reports: the failure with the text of the exception, or completion,
      unless the status is final already. */
  function LeavingWith(status: Status, exception: Option<string>): seq<Change> {
    match exception
    case Some(text) => [Change(None, Some(Failed), None, Some(text), None, None, None, false)]
    case None =>
      if status == Completed || status == Failed then []
      else [Change(None, Some(Completed), None, None, None, None, None, false)]
  }

  lemma StartFirst(r: Report, us: seq<Change>)
    requires us != []
    ensures var (r0, first) := ReportStart(r);
            ReportUpdates(r, us) == (ReportUpdates(r0, us).0, first + ReportUpdates(r0, us).1)
  {
    var (r0, first) := ReportStart(r);
    hide Stored, StartMessage, ProgressMessage;
    var (r1, log) := ReportUpdate(r, us[0]);
    assert ReportUpdate(r0, us[0]).0 == r1 && log == first + ReportUpdate(r0, us[0]).1;
    var (r2, rest) := ReportUpdates(r1, us[1..]);
    hide ReportUpdate, ReportStart;
    assert first + ReportUpdate(r0, us[0]).1 + rest == first + (ReportUpdate(r0, us[0]).1 + rest);
  }

  lemma {:induction false} UpdatesAppend(r: Report, us: seq<Change>, more: seq<Change>)
    ensures var (r1, log) := ReportUpdates(r, us);
            ReportUpdates(r, us + more) == (ReportUpdates(r1, more).0, log + ReportUpdates(r1, more).1)
    decreases |us|
  {
    hide ReportUpdate;
    if us == [] {
      assert us + more == more && [] + ReportUpdates(r, more).1 == ReportUpdates(r, more).1;
    } else {
      assert (us + more)[1..] == us[1..] + more;
      var (r1, first) := ReportUpdate(r, us[0]);
      UpdatesAppend(r1, us[1..], more);
      var (r2, middle) := ReportUpdates(r1, us[1..]);
      assert first + (middle + ReportUpdates(r2, more).1) == (first + middle) + ReportUpdates(r2, more).1;
    }
  }

  lemma BlockIsRun(r: Report, us: seq<Change>, exception: Option<string>)
    requires !r.started
    ensures var (r0, first) := ReportStart(r);
            BlockLog(r, us, exception) ==
              first + ReportUpdates(r0, us + LeavingWith(FieldsAfter(r, us).status, exception)).1
  {
    var (r0, first) := ReportStart(r);
    assert FieldsAfter(r0, us).status == FieldsAfter(r, us).status;
    hide FieldsAfter, LeavingWith, ExitUpdates, StartMessage;
    var (r1, middle) := ReportUpdates(r0, us);
    FieldsAfterRun(r0, us);
    LeavingIsExit(r1, exception);
    var more := LeavingWith(FieldsAfter(r, us).status, exception);
    UpdatesAppend(r0, us, more);
    assert first + middle + ReportUpdates(r1, more).1 == first + (middle + ReportUpdates(r1, more).1);
  }

  /** A block `async with reporter` shows the client exactly the run of its updates and the one
      with which it is left; a block without any shows the initial fields as pending. */
  lemma BlockShows(r: Report, us: seq<Change>, exception: Option<string>)
    requires !r.started
    ensures var all := us + LeavingWith(FieldsAfter(r, us).status, exception);
            var v := Fold(None, BlockLog(r, us, exception));
            if all == [] then
              v == Some(View(r.title, Pending, r.kind, r.locations, Rendered(r.content), r.rawInput, None))
            else
              v == Fold(None, ReportUpdates(r, all).1)
  {
    hide BlockLog, FieldsAfter, LeavingWith, Fold, ReportUpdates, ReportStart;
    BlockIsRun(r, us, exception);
    var all := us + LeavingWith(FieldsAfter(r, us).status, exception);
    if all == [] {
      NoUpdates(ReportStart(r).0);
      OnlyStarted(r);
      assert ReportStart(r).1 + [] == ReportStart(r).1;
    } else {
      StartFirst(r, all);
    }
  }

  lemma LeavingIsExit(r: Report, exception: Option<string>)
    ensures ExitUpdates(r, exception) == LeavingWith(r.status, exception)
  {
  }

  lemma OnlyStarted(r: Report)
    requires !r.started
    ensures Fold(None, ReportStart(r).1) ==
              Some(View(r.title, Pending, r.kind, r.locations, Rendered(r.content), r.rawInput, None))
  {
    FoldOne(None, ReportStart(r).1[0]);
    ContentsAreRendered(r.content);
    ContentsAreRendered([]);
    hide Contents;
  }

  /** The status that the client shows after a block. */
  lemma BlockEndsWith(r: Report, us: seq<Change>, exception: Option<string>)
    requires !r.started
    ensures var v := Fold(None, BlockLog(r, us, exception));
            var last := LastOf(StatusOf, us).Or(r.status);
            && v.Some?
            && v.value.status == (if exception.Some? then Failed
                                  else if last in {Pending, InProgress} then Completed
                                  else if us == [] then Pending else last)
            && (exception.Some? ==>
                  v.value.content == Rendered(ContentAfter(r.content, us)) + [TextContent(exception.value)])
  {
    hide Fold, BlockLog, ReportUpdates, FieldsAfter, ContentAfter, LastShown, LastOf, LeavingWith, Rendered;
    BlockShows(r, us, exception);
    LeavingShows(r, us, exception);
    var all := us + LeavingWith(FieldsAfter(r, us).status, exception);
    if all != [] {
      ClientSeesRun(r, all);
    }
  }

  lemma LeavingShows(r: Report, us: seq<Change>, exception: Option<string>)
    ensures var all := us + LeavingWith(FieldsAfter(r, us).status, exception);
            var last := LastOf(StatusOf, us).Or(r.status);
            && (all == [] <==> us == [] && exception.None? && last !in {Pending, InProgress})
            && FieldsAfter(r, all).status == (if exception.Some? then Failed
                                              else if last in {Pending, InProgress} then Completed else last)
            && (exception.Some? ==>
                  Rendered(ContentAfter(r.content, all)) ==
                    Rendered(ContentAfter(r.content, us)) + [TextContent(exception.value)])
  {
    hide ContentAfter, LocationsAfter, LastOf;
    var more := LeavingWith(FieldsAfter(r, us).status, exception);
    if more == [] {
      assert us + more == us;
    } else {
      LastOfSnoc(StatusOf, us, more[0]);
      ContentSnoc(r.content, us, more[0]);
    }
  }

  // ---- Deltas -----------------------------------------------------------------------------------

  /** The client of `ToolCallState`: every field as given last, where empty lists give nothing. */
  lemma ClientSeesDeltas(title: string, kind: string, rawInput: Option<Json>, us: seq<Change>)
    requires us != [] && forall u | u in us :: ReplaceStyle(u)
    ensures var f := FieldsAfter(Report(title, Some(kind), Pending, [], [], rawInput, None, false), us);
            Fold(None, DeltaUpdates(Delta(title, kind, rawInput, false, false), us).1) ==
              Some(View(f.title, f.status, f.kind, LastShown([], us),
                        match LastNonEmpty(us) case Some(blocks) => Rendered(blocks) case None => [],
                        rawInput, f.rawOutput))
  {
    var r, d := Report(title, Some(kind), Pending, [], [], rawInput, None, false),
      Delta(title, kind, rawInput, false, false);
    RunAgrees(None, None, r, d, us);
    ContentsAreRendered(LastNonEmpty(us).Or([]));
    hide Fold, ReportUpdates, DeltaUpdates, FieldsAfter, LastShown, LastNonEmpty, Contents, Rendered, ReplaceStyle;
    ClientSeesRun(r, us);
    DeltaAgreesWithFullState(title, kind, rawInput, us);
  }
}
