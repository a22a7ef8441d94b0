/** The resource index of the knowledge-base server: `sync_static_resources` makes the list of
    registered resources follow a directory that may change while it is being scanned. */
module KbIndex {
  import opened Lists
  import opened Options
  import opened Text

  /** A file, as its path relative to the knowledge base, such as `docs/intro.md`. */
  type File = string
  type Uri = string

  const SCHEME := "kb://"

  /** `_uri_for`: the namespace directory becomes the host of the URI. */
  function UriFor(f: File): Uri {
    var (ns, name) := Partition(f, '/');
    SCHEME + ns + "/" + name
  }

  /** Files below a namespace directory have different URIs. */
  lemma UriForIsInjective(f: File, g: File)
    requires '/' in f && '/' in g
    ensures UriFor(f) == UriFor(g) <==> f == g
  {
    PartitionJoins(f, '/');
    PartitionJoins(g, '/');
    assert UriFor(f) == SCHEME + f && UriFor(g) == SCHEME + g by {
      assert SCHEME + Partition(f, '/').0 + "/" + Partition(f, '/').1
        == SCHEME + (Partition(f, '/').0 + "/" + Partition(f, '/').1);
      assert SCHEME + Partition(g, '/').0 + "/" + Partition(g, '/').1
        == SCHEME + (Partition(g, '/').0 + "/" + Partition(g, '/').1);
    }
    if UriFor(f) == UriFor(g) {
      assert f == UriFor(f)[|SCHEME|..] == g;
    }
  }

  /** The URI is the path of the file behind the scheme; a file that is in no namespace directory
      gets a slash at the end. */
  lemma UriIsPath(f: File)
    ensures UriFor(f) == "kb://" + f + if '/' in f then "" else "/"
  {
    PartitionJoins(f, '/');
    var (ns, name) := Partition(f, '/');
    if '/' in f {
      assert f == ns + "/" + name;
      assert SCHEME + ns + "/" + name == SCHEME + (ns + "/" + name) + "";
    } else {
      PartitionFree(f, '/');
      assert SCHEME + f + "/" + "" == SCHEME + f + "/";
    }
  }

  function Uris(files: seq<File>): set<Uri> {
    set f | f in files :: UriFor(f)
  }

  /** How one synchronisation ends: with a flag, or with the exception of `path.stat()` on a file
      that vanished after the scan. */
  datatype Outcome = Done(changed: bool) | Raised

  /** What one synchronisation sees: the files in its two scans, and those that are gone again
      when their modification time is read. */
  datatype Sight = Sight(first: seq<File>, second: seq<File>, vanished: set<File>)

  /** The registered set after the removals. */
  function Remaining(registered: set<Uri>, sight: Sight): set<Uri> {
    registered * Uris(sight.first)
  }

  /** The second loop stops at file `k`: it has to be added, and it vanished. */
  predicate Stumbles(kept: set<Uri>, sight: Sight, k: nat) {
    && k < |sight.second| && sight.second[k] in sight.vanished
    && UriFor(sight.second[k]) !in kept + Uris(sight.second[..k])
  }

  /** The first such file, from the `i`-th on. */
  function FirstStumble(kept: set<Uri>, sight: Sight, i: nat): (r: Option<nat>)
    requires i <= |sight.second|
    ensures r.Some? ==> Stumbles(kept, sight, r.value) && r.value >= i
    ensures forall j: nat | i <= j && (r.Some? ==> j < r.value) :: !Stumbles(kept, sight, j)
    decreases |sight.second| - i
  {
    if i == |sight.second| then None
    else if Stumbles(kept, sight, i) then Some(i)
    else FirstStumble(kept, sight, i + 1)
  }

  /** One synchronisation: the registered set afterwards, and how it ends. */
  function Effect(before: set<Uri>, sight: Sight): (set<Uri>, Outcome) {
    var kept := Remaining(before, sight);
    match FirstStumble(kept, sight, 0)
    case Some(k) => (kept + Uris(sight.second[..k]), Raised)
    case None =>
      (kept + Uris(sight.second), Done(!(before <= Uris(sight.first)) || !(Uris(sight.second) <= kept)))
  }

  class KbServer {
    var registeredUris: set<Uri>
    /** The resources that the provider lists. */
    var provider: set<Uri>
    /** The resource list that clients saw at the last `list_changed` broadcast. */
    var announced: set<Uri>

    ghost predicate Valid()
      reads this
    {
      provider == registeredUris
    }

    /** `_remove_resource`: a missing resource is ignored. */
    method RemoveResource(uri: Uri)
      modifies this`provider
      ensures provider == old(provider) - {uri}
    {
      provider := provider - {uri};
    }

    /** The first loop: what the first scan did not see is removed. */
    method RemoveStale(current: set<Uri>) returns (changed: bool)
      requires Valid()
      modifies this`registeredUris, this`provider
      ensures Valid()
      ensures registeredUris == old(registeredUris) * current
      ensures changed <==> !(old(registeredUris) <= current)
    {
      changed := false;
      var stale := registeredUris - current;
      while stale != {}
        invariant Valid()
        invariant stale == registeredUris - current
        invariant registeredUris * current == old(registeredUris) * current
        invariant changed || registeredUris == old(registeredUris)
        invariant changed ==> !(old(registeredUris) <= current)
        invariant registeredUris <= old(registeredUris)
        decreases |stale|
      {
        var uri :| uri in stale;
        RemoveResource(uri);
        registeredUris := registeredUris - {uri};
        stale := stale - {uri};
        changed := true;
      }
      forall uri | uri in registeredUris ensures uri in current {
        assert uri in current || uri in stale;
      }
    }

    /** `sync_static_resources`. */
    method SyncStaticResources(sight: Sight) returns (outcome: Outcome)
      requires Valid()
      modifies this`registeredUris, this`provider
      ensures Valid()
      ensures (registeredUris, outcome) == Effect(old(registeredUris), sight)
    {
      hide Uris;
      var changed := RemoveStale(Uris(sight.first));
      ghost var kept, removed := registeredUris, changed;
      var i := 0;
      NoUris(sight.second);
      while i < |sight.second|
        invariant 0 <= i <= |sight.second|
        invariant Valid()
        invariant registeredUris == kept + Uris(sight.second[..i])
        invariant forall j: nat | j < i :: !Stumbles(kept, sight, j)
        invariant changed <==> removed || !(Uris(sight.second[..i]) <= kept)
      {
        var path := sight.second[i];
        var uri := UriFor(path);
        OneMoreUri(sight.second, i);
        if uri !in registeredUris {
          if path in sight.vanished {
            assert Stumbles(kept, sight, i);
            return Raised;
          }
          provider := provider + {uri};
          registeredUris := registeredUris + {uri};
          changed := true;
        }
        i := i + 1;
      }
      assert sight.second[..i] == sight.second;
      outcome := Done(changed);
    }

    /** One turn of `_scan_loop`: a change is broadcast; an exception is logged and the loop goes
        on. */
    method ScanOnce(sight: Sight) returns (ghost outcome: Outcome)
      requires Valid()
      modifies this
      ensures Valid()
      ensures (registeredUris, outcome) == Effect(old(registeredUris), sight)
      ensures Index(registeredUris, announced) == Scan(Index(old(registeredUris), old(announced)), sight)
    {
      var result := SyncStaticResources(sight);
      if result.Done? && result.changed {
        announced := registeredUris;
      }
      outcome := result;
    }
  }

  lemma NoUris(files: seq<File>)
    ensures Uris(files[..0]) == {}
  {
  }

  lemma OneMoreUri(files: seq<File>, i: nat)
    requires i < |files|
    ensures Uris(files[..i + 1]) == Uris(files[..i]) + {UriFor(files[i])}
  {
    assert files[..i + 1] == files[..i] + [files[i]];
  }

  /** The directory may change between the scans: the registered set ends between what the
      second scan saw and what either scan saw. */
  lemma EndsBetweenTheScans(before: set<Uri>, sight: Sight)
    ensures var (after, outcome) := Effect(before, sight);
            && after <= Uris(sight.first) + Uris(sight.second)
            && (outcome.Done? ==>
                  Uris(sight.second) <= after == (before * Uris(sight.first)) + Uris(sight.second))
  {
    var stumble := FirstStumble(Remaining(before, sight), sight, 0);
    if stumble.Some? {
      assert Uris(sight.second[..stumble.value]) <= Uris(sight.second);
    }
  }

  /** The flag says that the set changed, or that a resource was removed and added again. */
  lemma FlagMeansChange(before: set<Uri>, sight: Sight)
    ensures var (after, outcome) := Effect(before, sight);
            outcome.Done? ==>
              (outcome.changed <==>
                 (|| after != before
                  || exists uri :: uri in before && uri in Uris(sight.second) && uri !in Uris(sight.first)))
  {
    hide Uris;
    if before <= Uris(sight.first) {
      assert Remaining(before, sight) == before;
    } else {
      var uri :| uri in before && uri !in Uris(sight.first);
    }
  }

  /** A synchronisation raises exactly if some file of the second scan vanished, unless its
      resource was registered and seen by the first scan. */
  lemma RaisesIffANewFileVanished(before: set<Uri>, sight: Sight)
    requires forall f | f in sight.second :: '/' in f
    ensures Effect(before, sight).1.Raised? <==>
              exists f :: f in sight.second && f in sight.vanished
                && !(UriFor(f) in before && UriFor(f) in Uris(sight.first))
  {
    var kept := Remaining(before, sight);
    if f :| f in sight.second && f in sight.vanished && UriFor(f) !in kept {
      var k := FirstAt(sight.second, f);
      forall g | g in sight.second[..k] ensures UriFor(g) != UriFor(f) {
        UriForIsInjective(f, g);
      }
      assert Stumbles(kept, sight, k);
    }
    hide UriFor;
  }

  lemma {:induction false} FirstAt(files: seq<File>, f: File) returns (k: nat)
    requires f in files
    ensures k < |files| && files[k] == f && f !in files[..k]
  {
    k := 0;
    while files[k] != f
      invariant k < |files| && f !in files[..k]
      decreases |files| - k
    {
      assert files[..k + 1] == files[..k] + [files[k]];
      assert f in files[..k + 1] + files[k + 1..] by {
        assert files[..k + 1] + files[k + 1..] == files;
      }
      k := k + 1;
    }
  }

  /** From any registered set: if the directory stands still during a synchronisation that does
      not raise, the index equals the directory, and the flag is true exactly when the set
      changed. Repeating it, whatever vanishes then, returns false and changes nothing. */
  lemma Converges(before: set<Uri>, files: seq<File>, vanished: set<File>)
    ensures var (after, outcome) := Effect(before, Sight(files, files, vanished));
            outcome.Done? ==> after == Uris(files) && (outcome.changed <==> before != after)
    ensures forall vanished' :: Effect(Uris(files), Sight(files, files, vanished')) == (Uris(files), Done(false))
  {
    FlagMeansChange(before, Sight(files, files, vanished));
    forall vanished' ensures Effect(Uris(files), Sight(files, files, vanished')) == (Uris(files), Done(false)) {
      StillStays(files, vanished');
    }
    hide Uris;
  }

  lemma StillStays(files: seq<File>, vanished: set<File>)
    ensures Effect(Uris(files), Sight(files, files, vanished)) == (Uris(files), Done(false))
  {
    var sight, kept := Sight(files, files, vanished), Uris(files);
    assert forall k | 0 <= k < |files| :: UriFor(files[k]) in kept;
    hide Uris, FirstStumble, UriFor;
    assert Remaining(kept, sight) == kept && kept + kept == kept;
    assert forall k: nat :: !Stumbles(kept, sight, k);
  }

  // ---- Runs of the scan loop ------------------------------------------------------

  /** The registered set, and the one that clients were told last. */
  datatype Index = Index(registered: set<Uri>, announced: set<Uri>)

  function Scan(s: Index, sight: Sight): Index {
    var (after, outcome) := Effect(s.registered, sight);
    Index(after, if outcome == Done(true) then after else s.announced)
  }

  function Scans(s: Index, sights: seq<Sight>): Index {
    if sights == [] then s else Scan(Scans(s, Init(sights)), Last(sights))
  }

  /** How the `i`-th scan of a run ends. */
  function OutcomeAt(s: Index, sights: seq<Sight>, i: nat): Outcome
    requires i < |sights|
  {
    Effect(Scans(s, sights[..i]).registered, sights[i]).1
  }

  predicate UpToDate(s: Index) { s.announced == s.registered }

  /** What a raising scan passed before it met the file that had vanished. */
  ghost function Passed(s: Index, sight: Sight): set<Uri> {
    var stumble := FirstStumble(Remaining(s.registered, sight), sight, 0);
    if stumble.Some? then Uris(sight.second[..stumble.value]) else Uris(sight.second)
  }

  /** What it passed was registered before, and what it removed it had added again. */
  ghost predicate HidesItsChange(s: Index, sight: Sight) {
    Passed(s, sight) <= s.registered && s.registered - Uris(sight.first) <= Passed(s, sight)
  }

  /** It removed all that clients were not told of, and passed all that they were told and that
      was not registered or was removed, and nothing that they were not told. */
  ghost predicate MakesUpForMiss(s: Index, sight: Sight) {
    && (s.registered - s.announced) !! Uris(sight.first)
    && (s.announced - s.registered) + (s.announced - Uris(sight.first)) <= Passed(s, sight) <= s.announced
  }

  /** Whether clients know the list after a scan that raised, told from the sets before it and
      from what it saw: if they did before, it must have hidden its own change; if they did not,
      it must have made up for what they missed. */
  ghost predicate LeavesUpToDate(s: Index, sight: Sight) {
    if UpToDate(s) then HidesItsChange(s, sight) else MakesUpForMiss(s, sight)
  }

  lemma RaisingScanLeavesUpToDate(s: Index, sight: Sight)
    requires Effect(s.registered, sight).1.Raised?
    ensures UpToDate(Scan(s, sight)) <==> LeavesUpToDate(s, sight)
    ensures UpToDate(s) ==> (MakesUpForMiss(s, sight) <==> HidesItsChange(s, sight))
  {
    RaisingScanSets(s, sight);
    hide Effect, Scan, Passed, Uris, Remaining;
    SameSets(s.registered, s.announced, Uris(sight.first), Passed(s, sight));
  }

  lemma RaisingScanSets(s: Index, sight: Sight)
    requires Effect(s.registered, sight).1.Raised?
    ensures Scan(s, sight) == Index(s.registered * Uris(sight.first) + Passed(s, sight), s.announced)
  {
    hide Uris, FirstStumble;
    assert Remaining(s.registered, sight) == s.registered * Uris(sight.first);
  }

  lemma SameSets(registered: set<Uri>, announced: set<Uri>, first: set<Uri>, passed: set<Uri>)
    ensures var makesUp := (registered - announced) !! first
                           && (announced - registered) + (announced - first) <= passed <= announced;
            && (announced == registered * first + passed <==> makesUp)
            && (announced == registered ==> (makesUp <==> passed <= registered && registered - first <= passed))
  {
    assert (registered - announced) !! first <==> registered * first <= announced;
    assert announced <= registered * first + passed <==> (announced - registered) + (announced - first) <= passed;
  }

  lemma QuietScanKeeps(s: Index, sight: Sight)
    requires Effect(s.registered, sight).1 == Done(false)
    ensures Scan(s, sight) == s
  {
    FlagMeansChange(s.registered, sight);
    hide Uris;
  }

  /** The scan number `t` raised, and no later scan of the run changed anything. */
  ghost predicate RaisedLast(s: Index, sights: seq<Sight>, t: nat) {
    && t < |sights| && OutcomeAt(s, sights, t).Raised?
    && forall u | t < u < |sights| :: OutcomeAt(s, sights, u) == Done(false)
  }

  /** Main result for runs: after any scans of any directories, clients know the registered list
      exactly if the last scan that did anything did not raise, or raised but hid its own change
      or made up for what they missed. So one later change that is announced heals every miss. */
  lemma {:induction false} UpToDateExactlyIf(s: Index, sights: seq<Sight>)
    requires UpToDate(s)
    ensures UpToDate(Scans(s, sights)) <==>
              forall t: nat | RaisedLast(s, sights, t) :: LeavesUpToDate(Scans(s, sights[..t]), sights[t])
  {
    hide LeavesUpToDate, OutcomeAt, RaisedLast;
    if sights == [] {
      NoRaise(s);
    } else {
      hide Scans, UpToDate;
      var n, front := |sights| - 1, Init(sights);
      assert sights[..n] == front;
      forall t: nat | t < n ensures front[..t] == sights[..t] {
      }
      UpToDateExactlyIf(s, front);
      LastRaise(s, sights);
      RaisedInside(s, front);
      LastScanDecides(s, sights);
    }
  }

  lemma NoRaise(s: Index)
    ensures Scans(s, []) == s && forall t: nat :: !RaisedLast(s, [], t)
  {
  }

  lemma RaisedInside(s: Index, sights: seq<Sight>)
    ensures forall t: nat | RaisedLast(s, sights, t) :: t < |sights|
  {
    hide OutcomeAt;
  }

  lemma LastScanDecides(s: Index, sights: seq<Sight>)
    requires sights != []
    ensures var last, sight := Scans(s, Init(sights)), Last(sights);
            UpToDate(Scans(s, sights)) <==>
              match OutcomeAt(s, sights, |sights| - 1)
              case Raised => LeavesUpToDate(last, sight)
              case Done(changed) => changed || UpToDate(last)
  {
    hide Effect, LeavesUpToDate, FirstStumble, Uris;
    assert sights[..|sights| - 1] == Init(sights);
    var last, outcome := Scans(s, Init(sights)), OutcomeAt(s, sights, |sights| - 1);
    if outcome == Done(false) {
      QuietScanKeeps(last, Last(sights));
    } else if outcome.Raised? {
      RaisingScanLeavesUpToDate(last, Last(sights));
    }
  }

  /** Which scan of a longer run raised last. */
  lemma LastRaise(s: Index, sights: seq<Sight>)
    requires sights != []
    ensures var n := |sights| - 1;
            forall t: nat :: RaisedLast(s, sights, t) <==>
              match OutcomeAt(s, sights, n)
              case Raised => t == n
              case Done(changed) => !changed && RaisedLast(s, Init(sights), t)
  {
    hide OutcomeAt;
    var n, front := |sights| - 1, Init(sights);
    forall t: nat | t < n ensures OutcomeAt(s, front, t) == OutcomeAt(s, sights, t) {
      OutcomeInFront(s, sights, t);
    }
  }

  lemma OutcomeInFront(s: Index, sights: seq<Sight>, t: nat)
    requires t < |sights| - 1
    ensures Init(sights)[..t] == sights[..t] && OutcomeAt(s, Init(sights), t) == OutcomeAt(s, sights, t)
  {
    hide Effect, Scans;
    assert Init(sights)[..t] == sights[..t];
  }

  /** A miss does not heal by itself: while the directory stands still, nothing is announced. */
  lemma {:induction false} MissLasts(s: Index, files: seq<File>, vanished: set<File>, n: nat)
    requires s.registered == Uris(files)
    ensures Scans(s, seq(n, _ => Sight(files, files, vanished))) == s
  {
    hide Uris, Effect;
    var sights := seq(n, _ => Sight(files, files, vanished));
    if n > 0 {
      assert Init(sights) == seq(n - 1, _ => Sight(files, files, vanished));
      MissLasts(s, files, vanished, n - 1);
      StillStays(files, vanished);
    }
  }

  /** For instance: the scan removes one resource and then raises on a file that vanished. */
  lemma RemovalIsNotAnnounced()
    ensures var s := Index({UriFor("docs/a.md")}, {UriFor("docs/a.md")});
            var sight := Sight(["docs/b.md"], ["docs/b.md"], {"docs/b.md"});
            Scan(s, sight).registered == {} && !UpToDate(Scan(s, sight))
  {
    var a, b := "docs/a.md", "docs/b.md";
    assert a[5] == 'a' && b[5] == 'b' && a[4] == '/' && b[4] == '/';
    RemovalThenRaise(a, b);
  }

  lemma RemovalThenRaise(a: File, b: File)
    requires a != b && '/' in a && '/' in b
    ensures var s := Index({UriFor(a)}, {UriFor(a)});
            var sight := Sight([b], [b], {b});
            Scan(s, sight).registered == {} && !UpToDate(Scan(s, sight))
  {
    hide UriFor;
    UriForIsInjective(a, b);
    var s, sight := Index({UriFor(a)}, {UriFor(a)}), Sight([b], [b], {b});
    assert Uris([b]) == {UriFor(b)};
    assert [b][..0] == [] && Uris([]) == {};
    hide Uris, FirstStumble;
    assert Remaining(s.registered, sight) == {};
    assert Stumbles({}, sight, 0);
    assert FirstStumble({}, sight, 0) == Some(0);
  }
}
