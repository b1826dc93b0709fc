/**
 * The command object: the memoised source-to-asset map, the cache file behind it,
 * the dump driver (doDumpAssets) and the server loop (doRunServer).
 */
module DumpCommand {
  import opened Wrappers
  import opened PhpStrings
  import opened Assets
  import opened DependencyMaps
  import opened GraphBuilder
  import opened ImpactResolver
  import opened Dispatch
  import opened GraphBuilderProperties

  /** What the cache file holds: a serialized map, or content that does not unserialize to an array. */
  datatype CacheContent = Garbage | Serialized(snapshot: DependencyMap)

  /** The memoised map (the `sourceAssetMap` field) and the cache file, absent or present. */
  datatype Cache = Cache(memo: Option<DependencyMap>, file: Option<CacheContent>)

  /**
   * The command's collaborators: the asset manager's catalog, child extraction by
   * the filters, the depth at which the walk gives up, and dumpAsset, which either
   * completes (None) or throws an exception with the given message.
   */
  datatype World = World(catalog: seq<CatalogEntry>, extract: Extractor, depth: nat, dumpFailure: string -> Option<string>)

  /** What the command has done so far: its cache, the names dumped and the lines written to stderr. */
  datatype State = State(cache: Cache, dumped: seq<string>, stderr: seq<string>)

  /** buildSourceToAssetMap against the world. */
  ghost function Build(w: World): Result<DependencyMap, BuildError> {
    BuildFrom(EmptyMap, w.catalog, w.extract, w.depth)
  }

  /** A map the resolver can work on: well formed, with no reference cycle reachable from a recorded name. */
  ghost predicate Usable(m: DependencyMap) {
    WellFormed(m) && Resolvable(m)
  }

  /** The map the world builds has no reference cycle reachable from a recorded name. */
  ghost predicate Sound(w: World) {
    Build(w).Ok? ==> Resolvable(Build(w).value)
  }

  /** Every map the cache can hand out is usable. */
  ghost predicate Trusted(c: Cache) {
    && (c.memo.Some? ==> Usable(c.memo.value))
    && (c.file.Some? && c.file.value.Serialized? ==> Usable(c.file.value.snapshot))
  }

  /** The memoised map is the one the cache file holds. */
  ghost predicate Coherent(c: Cache) {
    c.memo.Some? ==> c.file == Some(Serialized(c.memo.value))
  }

  /** Rebuild the map and, when that succeeds, write it to the file and memoise it. */
  ghost function Rebuild(c: Cache, w: World): (r: (Cache, Result<DependencyMap, BuildError>))
    ensures r.1 == Build(w)
    ensures r.1.Ok? ==> r.0 == Cache(Some(r.1.value), Some(Serialized(r.1.value)))
    ensures r.1.Err? ==> r.0 == c
  {
    match Build(w)
    case Err(e) => (c, Err(e))
    case Ok(m) => (Cache(Some(m), Some(Serialized(m))), Ok(m))
  }

  /**
   * getSourceToAssetMap: the new cache and the map returned, or the build error
   * thrown. A successful lookup always leaves the returned map memoised.
   */
  ghost function Lookup(c: Cache, force: bool, w: World): (r: (Cache, Result<DependencyMap, BuildError>))
    ensures r.1.Ok? ==> r.0.memo == Some(r.1.value)
    ensures r.1.Err? ==> r.0 == c
    ensures Trusted(c) && Sound(w) ==> Trusted(r.0) && (r.1.Ok? ==> Usable(r.1.value))
  {
    BuiltMapInvariants(w.catalog, w.extract, w.depth);
    if force || c.file.None? then Rebuild(c, w)
    else if c.memo.Some? then (c, Ok(c.memo.value))
    else match c.file.value
      case Garbage => Rebuild(c, w)
      case Serialized(m) => (Cache(Some(m), c.file), Ok(m))
  }

  /**
   * The cache policy: a forced lookup, or one without a cache file, returns a
   * fresh build and stores it in the field and the file; an unforced lookup with
   * the field set returns it and touches nothing; otherwise the file is read, and
   * rebuilt only when its content is not a map.
   */
  lemma CachePolicy(c: Cache, force: bool, w: World)
    ensures force || c.file.None? ==>
      Lookup(c, force, w).1 == Build(w)
      && (Build(w).Ok? ==> Lookup(c, force, w).0 == Cache(Some(Build(w).value), Some(Serialized(Build(w).value))))
    ensures !force && c.file.Some? && c.memo.Some? ==> Lookup(c, force, w) == (c, Ok(c.memo.value))
    ensures !force && c.memo.None? && c.file.Some? && c.file.value.Serialized? ==>
      Lookup(c, force, w) == (c.(memo := Some(c.file.value.snapshot)), Ok(c.file.value.snapshot))
    ensures !force && c.memo.None? && c.file == Some(Garbage) ==> Lookup(c, force, w).1 == Build(w)
  {
  }

  /** Within one process the field never disagrees with the file it was read from or written to. */
  lemma LookupCoherent(c: Cache, force: bool, w: World)
    requires Coherent(c)
    ensures Coherent(Lookup(c, force, w).0)
    ensures Lookup(c, force, w).1.Ok? ==> Lookup(c, force, w).0.file == Some(Serialized(Lookup(c, force, w).1.value))
  {
  }

  /** After a successful lookup, an unforced one returns the same map and changes nothing. */
  lemma LookupStable(c: Cache, force: bool, w: World)
    requires Lookup(c, force, w).1.Ok?
    ensures Lookup(Lookup(c, force, w).0, false, w) == Lookup(c, force, w)
  {
    var (c1, r1) := Lookup(c, force, w);
    assert c1.file.Some?;
  }

  /** The names dumpAsset completed, in order, and the message of the exception that stopped the loop. */
  datatype DumpRun = DumpRun(done: seq<string>, failure: Option<string>)

  /** The dump loop over `names` inside the try block. */
  function DumpAll(names: seq<string>, dumpFailure: string -> Option<string>): (r: DumpRun)
    ensures |r.done| <= |names| && r.done == names[..|r.done|]
    ensures r.failure.None? ==> r.done == names
  {
    if names == [] then DumpRun([], None)
    else match dumpFailure(names[0])
      case Some(msg) => DumpRun([], Some(msg))
      case None =>
        var rest := DumpAll(names[1..], dumpFailure);
        DumpRun([names[0]] + rest.done, rest.failure)
  }

  /**
   * Names are dumped in order: every name before the failing one completes, the
   * loop stops at the first name that throws with that name's message, and no
   * name after it is dumped.
   */
  lemma {:induction false} DumpStopsAtFirstFailure(names: seq<string>, dumpFailure: string -> Option<string>)
    ensures var r := DumpAll(names, dumpFailure);
      && r.done <= names
      && (forall n :: n in r.done ==> dumpFailure(n).None?)
      && (r.failure.None? ==> r.done == names)
      && (r.failure.Some? ==> |r.done| < |names| && dumpFailure(names[|r.done|]) == r.failure)
    decreases |names|
  {
    if names != [] && dumpFailure(names[0]).None? {
      DumpStopsAtFirstFailure(names[1..], dumpFailure);
      var rest := DumpAll(names[1..], dumpFailure);
      assert names == [names[0]] + names[1..];
      if rest.failure.Some? {
        assert names[|rest.done| + 1] == names[1..][|rest.done|];
      }
    }
  }

  /** How the dump loop proceeds at position `i`: stop when the name throws, otherwise dump it and go on. */
  lemma DumpAllAt(names: seq<string>, i: nat, dumpFailure: string -> Option<string>)
    requires i < |names|
    ensures DumpAll(names[i..], dumpFailure)
      == if dumpFailure(names[i]).Some? then DumpRun([], dumpFailure(names[i]))
         else DumpRun([names[i]] + DumpAll(names[i + 1..], dumpFailure).done, DumpAll(names[i + 1..], dumpFailure).failure)
    ensures dumpFailure(names[i]).Some? ==> names[..i] + DumpAll(names[i..], dumpFailure).done == names[..i]
    ensures dumpFailure(names[i]).None? ==>
      names[..i] + DumpAll(names[i..], dumpFailure).done == names[..i + 1] + DumpAll(names[i + 1..], dumpFailure).done
  {
    assert names[i..][1..] == names[i + 1..];
    assert names[..i] + [] == names[..i];
    ghost var later := DumpAll(names[i + 1..], dumpFailure).done;
    assert names[..i] + ([names[i]] + later) == names[..i + 1] + later;
  }

  /** The stderr line for a caught exception. */
  function ErrorLine(msg: string): string {
    "<error>[error]</error> " + msg
  }

  /** What a caught exception writes to stderr: nothing when its message is "" or "0". */
  function Report(msg: string): (lines: seq<string>)
    ensures lines == [] <==> IsFalsy(msg)
    ensures forall i :: 0 <= i < |lines| ==> lines[i] == ErrorLine(msg)
    ensures |lines| <= 1
  {
    if IsFalsy(msg) then [] else [ErrorLine(msg)]
  }

  /** The outcome of doDumpAssets: the new state, each resolution computed, and an exception that escapes. */
  datatype DumpEffect = DumpEffect(after: State, resolved: seq<seq<string>>, escaped: Option<BuildError>)

  /** Dump `names` in order and report the exception that stops the loop, if any. */
  function Finish(s: State, resolved: seq<seq<string>>, names: seq<string>, w: World): (e: DumpEffect)
    ensures e.escaped.None? && e.resolved == resolved && e.after.cache == s.cache
    ensures s.dumped <= e.after.dumped && |e.after.dumped| <= |s.dumped| + |names|
    ensures e.after.dumped[|s.dumped|..] <= names
    ensures s.stderr <= e.after.stderr && |e.after.stderr| <= |s.stderr| + 1
  {
    var run := DumpAll(names, w.dumpFailure);
    var (done, failure) := (run.done, run.failure);
    assert (s.dumped + done)[|s.dumped|..] == done;
    DumpEffect(
      State(s.cache, s.dumped + done, s.stderr + (if failure.Some? then Report(failure.value) else [])),
      resolved, None)
  }

  /**
   * doDumpAssets: look the map up (an error here escapes), resolve the changed
   * files; if nothing is impacted, rebuild by force and resolve once more; then
   * dump the names. The forced rebuild, the resolutions and the dumps share one
   * try block, whose handler reports the message.
   */
  ghost function DumpAssets(s: State, files: seq<string>, force: bool, w: World): (e: DumpEffect)
    requires Trusted(s.cache) && Sound(w)
    ensures Trusted(e.after.cache)
  {
    var (c1, r1) := Lookup(s.cache, force, w);
    if r1.Err? then DumpEffect(s.(cache := c1), [], Some(r1.error))
    else Retried(s.(cache := c1), files, Impact(files, r1.value), w)
  }

  /**
   * The part of doDumpAssets inside the try block, once the first resolution is
   * known. A build that exhausts the depth stands for PHP recursing without end,
   * a fatal error that the catch block does not handle, so it escapes.
   */
  ghost function Retried(s: State, files: seq<string>, first: seq<string>, w: World): (e: DumpEffect)
    requires Trusted(s.cache) && Sound(w)
    ensures Trusted(e.after.cache)
  {
    if first != [] then Finish(s, [first], first, w)
    else
      var (c2, r2) := Lookup(s.cache, true, w);
      if r2.Err? then
        if r2.error.DepthExceeded? then DumpEffect(s.(cache := c2), [first], Some(r2.error))
        else DumpEffect(State(c2, s.dumped, s.stderr + Report(r2.error.Message())), [first], None)
      else
        var second := Impact(files, r2.value);
        Finish(s.(cache := c2), [first, second], second, w)
  }

  /**
   * The first resolution is made against the map the first lookup returns, and
   * none is made when that lookup throws. The second resolution happens only when
   * the first finds nothing, at most once, and against a fresh build. When that build fails, an extraction error
   * is caught while exhausting the depth escapes.
   */
  lemma RetryOnlyWhenEmpty(s: State, files: seq<string>, force: bool, w: World)
    requires Trusted(s.cache) && Sound(w)
    ensures var e := DumpAssets(s, files, force, w);
      && |e.resolved| <= 2
      && (e.resolved == [] ==> e.escaped.Some?)
      && (e.escaped.Some? && e.resolved != [] ==> e.resolved == [[]] && e.escaped == Some(DepthExceeded))
      && (|e.resolved| == 1 && e.resolved[0] == [] ==> Build(w).Err? && (e.escaped.Some? <==> Build(w).error == DepthExceeded))
      && (e.resolved != [] && e.resolved[0] != [] ==> |e.resolved| == 1)
      && (|e.resolved| == 2 ==> e.resolved[0] == [] && Build(w).Ok? && e.resolved[1] == Impact(files, Build(w).value))
      && (|e.resolved| == 1 && e.resolved[0] == [] ==> e.after.dumped == s.dumped)
    ensures var e := DumpAssets(s, files, force, w);
      var l := Lookup(s.cache, force, w);
      && (l.1.Err? ==> e.resolved == [] && e.escaped == Some(l.1.error) && e.after == s.(cache := l.0))
      && (l.1.Ok? ==> e.resolved != [] && e.resolved[0] == Impact(files, l.1.value))
  {
  }

  /** Reporting adds nothing, or one error line with a message that is neither "" nor "0". */
  ghost predicate ReportsAtMostOne(before: seq<string>, after: seq<string>) {
    after == before || exists msg :: !IsFalsy(msg) && after == before + [ErrorLine(msg)]
  }

  lemma ReportOnce(stderr: seq<string>, msg: string)
    ensures ReportsAtMostOne(stderr, stderr + Report(msg))
  {
    if !IsFalsy(msg) {
      assert stderr + Report(msg) == stderr + [ErrorLine(msg)];
    } else {
      assert stderr + Report(msg) == stderr;
    }
  }

  lemma FinishFollows(s: State, resolved: seq<seq<string>>, names: seq<string>, w: World)
    ensures var e := Finish(s, resolved, names, w);
      var done := e.after.dumped[|s.dumped|..];
      && e.after.cache == s.cache && e.resolved == resolved && e.escaped.None?
      && s.dumped <= e.after.dumped
      && done <= names
      && (forall n :: n in done ==> w.dumpFailure(n).None?)
      && ReportsAtMostOne(s.stderr, e.after.stderr)
      && (|done| < |names| ==>
            w.dumpFailure(names[|done|]).Some?
            && e.after.stderr == s.stderr + Report(w.dumpFailure(names[|done|]).value))
  {
    DumpStopsAtFirstFailure(names, w.dumpFailure);
    var run := DumpAll(names, w.dumpFailure);
    var (done, failure) := (run.done, run.failure);
    assert (s.dumped + done)[|s.dumped|..] == done;
    if failure.Some? {
      ReportOnce(s.stderr, failure.value);
    } else {
      assert s.stderr + [] == s.stderr;
    }
  }

  /**
   * The names dumped are a prefix of the last resolution, each one completed; when
   * the prefix is short, the next name threw and its message was reported; stderr
   * gains at most one line, and never one for an empty message. When the forced
   * rebuild of the retry fails with an error that is caught, that error is reported
   * and nothing is dumped.
   */
  lemma DumpsFollowResolution(s: State, files: seq<string>, force: bool, w: World)
    requires Trusted(s.cache) && Sound(w)
    ensures var e := DumpAssets(s, files, force, w);
      var done := e.after.dumped[|s.dumped|..];
      && s.dumped <= e.after.dumped
      && ReportsAtMostOne(s.stderr, e.after.stderr)
      && (e.escaped.Some? ==> e.after == s.(cache := e.after.cache))
      && (forall n :: n in done ==> w.dumpFailure(n).None?)
      && (e.resolved != [] ==>
            var last := e.resolved[|e.resolved| - 1];
            && done <= last
            && (|done| < |last| ==>
                  w.dumpFailure(last[|done|]).Some?
                  && e.after.stderr == s.stderr + Report(w.dumpFailure(last[|done|]).value)))
    ensures var e := DumpAssets(s, files, force, w);
      |e.resolved| == 1 && e.resolved[0] == [] && e.escaped.None? ==>
        && Build(w).Err?
        && e.after.stderr == s.stderr + Report(Build(w).error.Message())
        && e.after.dumped == s.dumped
  {
    var e := DumpAssets(s, files, force, w);
    var (c1, r1) := Lookup(s.cache, force, w);
    if r1.Ok? {
      var s1 := s.(cache := c1);
      var first := Impact(files, r1.value);
      if first != [] {
        FinishFollows(s1, [first], first, w);
      } else {
        var (c2, r2) := Lookup(c1, true, w);
        if r2.Ok? {
          var second := Impact(files, r2.value);
          FinishFollows(s.(cache := c2), [first, second], second, w);
        } else if r2.error.DepthExceeded? {
          assert e.after.dumped[|s.dumped|..] == [];
        } else {
          ReportOnce(s.stderr, r2.error.Message());
          assert e.after.dumped[|s.dumped|..] == [];
        }
      }
    } else {
      assert e.after.dumped[|s.dumped|..] == [];
    }
  }

  /** The result of handling one request: the new state and an exception that escapes the server. */
  datatype Step = Step(after: State, crash: Option<BuildError>)

  /** One request: `refresh` is a forced lookup, a path is a doDumpAssets of that one file. */
  ghost function Execute(s: State, r: Request, w: World): (t: Step)
    requires Trusted(s.cache) && Sound(w)
    ensures Trusted(t.after.cache)
  {
    match r
    case Refresh =>
      var (c, m) := Lookup(s.cache, true, w);
      Step(s.(cache := c), if m.Err? then Some(m.error) else None)
    case DumpChanged(path, force) =>
      var e := DumpAssets(s, [path], force, w);
      Step(e.after, e.escaped)
  }

  /** The requests in order, up to the first that throws. */
  ghost function Perform(s: State, rs: seq<Request>, w: World): (t: Step)
    requires Trusted(s.cache) && Sound(w)
    ensures Trusted(t.after.cache)
    decreases |rs|
  {
    if rs == [] then Step(s, None)
    else
      var t := Execute(s, rs[0], w);
      if t.crash.Some? then t else Perform(t.after, rs[1..], w)
  }

  /** `refresh` rebuilds the map and dumps nothing; it throws exactly when the build fails. */
  lemma RefreshRebuildsOnly(s: State, w: World)
    requires Trusted(s.cache) && Sound(w)
    ensures var t := Execute(s, Refresh, w);
      && t.after.dumped == s.dumped && t.after.stderr == s.stderr
      && (t.crash.None? <==> Build(w).Ok?)
      && (Build(w).Ok? ==> t.after.cache == Cache(Some(Build(w).value), Some(Serialized(Build(w).value))))
  {
    CachePolicy(s.cache, true, w);
  }

  lemma {:induction false} PerformAppend(s: State, a: seq<Request>, b: seq<Request>, w: World)
    requires Trusted(s.cache) && Sound(w)
    ensures var t := Perform(s, a, w);
      Perform(s, a + b, w) == if t.crash.Some? then t else Perform(t.after, b, w)
    decreases |a|
  {
    if a == [] {
      assert a + b == b;
    } else {
      assert (a + b)[1..] == a[1..] + b;
      var t := Execute(s, a[0], w);
      if t.crash.None? {
        PerformAppend(t.after, a[1..], b, w);
      }
    }
  }

  /** Serving one command and then the rest, with `force` carried over. */
  lemma ServeStep(s: State, cmd: string, rest: seq<string>, force: bool, w: World)
    requires Trusted(s.cache) && Sound(w)
    ensures var t := Perform(s, Requests([cmd], force), w);
      && Perform(s, Requests([cmd] + rest, force), w)
         == (if t.crash.Some? then t else Perform(t.after, Requests(rest, ForceAfter([cmd], force)), w))
      && ForceAfter([cmd] + rest, force) == ForceAfter(rest, ForceAfter([cmd], force))
  {
    RequestsAppend([cmd], rest, force);
    ForceAfterAppend([cmd], rest, force);
    PerformAppend(s, Requests([cmd], force), Requests(rest, ForceAfter([cmd], force)), w);
  }

  /** `quit` requests nothing and leaves `force` alone. */
  lemma QuitRequestsNothing(force: bool)
    ensures Requests(["quit"], force) == []
    ensures ForceAfter(["quit"], force) == force
  {
    assert ["quit"][1..] == [];
    assert forall c :: c in ["quit"] ==> c == "quit";
  }

  /** How a run of the server ends. */
  datatype ServerOutcome =
    | BindFailed(message: string)   // stream_socket_server failed
    | Crashed(error: BuildError)    // an exception escaped a command
    | Listening(force: bool)        // every connection was served; waiting for the next

  class DumpFilesCommand {
    var sourceAssetMap: Option<DependencyMap>
    var cacheFile: Option<CacheContent>
    var dumped: seq<string>
    var stderr: seq<string>

    /** A command whose field is unset, with the cache file as a previous run left it. */
    constructor (cacheFile: Option<CacheContent>)
      ensures Current() == State(Cache(None, cacheFile), [], [])
    {
      this.sourceAssetMap := None;
      this.cacheFile := cacheFile;
      this.dumped := [];
      this.stderr := [];
    }

    function Current(): State
      reads this
    {
      State(Cache(sourceAssetMap, cacheFile), dumped, stderr)
    }

    /** Rebuild, then write the cache file and set the field if the build succeeded. */
    method Rebuilt(w: World) returns (r: Result<DependencyMap, BuildError>)
      modifies this`sourceAssetMap, this`cacheFile
      ensures (Current().cache, r) == Rebuild(old(Current().cache), w)
    {
      r := BuildSourceToAssetMap(w.catalog, w.extract, w.depth);
      if r.Ok? {
        cacheFile := Some(Serialized(r.value));
        sourceAssetMap := Some(r.value);
      }
    }

    /** getSourceToAssetMap: a failed build is returned as the exception it throws. */
    method GetSourceToAssetMap(force: bool, w: World) returns (r: Result<DependencyMap, BuildError>)
      modifies this`sourceAssetMap, this`cacheFile
      ensures (Current().cache, r) == Lookup(old(Current().cache), force, w)
    {
      if force || cacheFile.None? {
        r := Rebuilt(w);
      } else if sourceAssetMap.None? {
        match cacheFile.value
        case Garbage =>
          r := Rebuilt(w);
        case Serialized(m) =>
          sourceAssetMap := Some(m);
          r := Ok(m);
      } else {
        r := Ok(sourceAssetMap.value);
      }
    }

    /** The dump loop: dumpAsset for each name until one throws. */
    method DumpNames(names: seq<string>, w: World) returns (failure: Option<string>)
      modifies this`dumped
      ensures dumped == old(dumped) + DumpAll(names, w.dumpFailure).done
      ensures failure == DumpAll(names, w.dumpFailure).failure
    {
      failure := None;
      var i := 0;
      assert names[..0] == [] && names[0..] == names;
      while i < |names|
        invariant 0 <= i <= |names|
        invariant dumped == old(dumped) + names[..i]
        invariant DumpAll(names, w.dumpFailure).done == names[..i] + DumpAll(names[i..], w.dumpFailure).done
        invariant DumpAll(names, w.dumpFailure).failure == DumpAll(names[i..], w.dumpFailure).failure
      {
        var outcome := w.dumpFailure(names[i]);
        DumpAllAt(names, i, w.dumpFailure);
        if outcome.Some? {
          failure := outcome;
          return;
        }
        dumped := dumped + [names[i]];
        i := i + 1;
      }
      assert names[i..] == [];
      assert names[..i] + [] == names[..i];
    }

    /** The catch block: write the message to stderr unless it is "" or "0". */
    method ReportError(msg: string)
      modifies this`stderr
      ensures stderr == old(stderr) + Report(msg)
    {
      if !IsFalsy(msg) {
        stderr := stderr + [ErrorLine(msg)];
      }
    }

    /** doDumpAssets for the changed `files`. */
    method DoDumpAssets(files: seq<string>, force: bool, w: World)
      returns (resolved: seq<seq<string>>, escaped: Option<BuildError>)
      requires Trusted(Current().cache) && Sound(w)
      modifies this
      ensures DumpEffect(Current(), resolved, escaped) == DumpAssets(old(Current()), files, force, w)
    {
      var r := GetSourceToAssetMap(force, w);
      if r.Err? {
        return [], Some(r.error);
      }
      var m := r.value;
      var names := AssetsToDump(files, m, RankOf(m).0, RankOf(m).1);
      resolved, escaped := RetryAndDump(files, names, w);
    }

    /** The try block of doDumpAssets after the first resolution. */
    method RetryAndDump(files: seq<string>, first: seq<string>, w: World)
      returns (resolved: seq<seq<string>>, escaped: Option<BuildError>)
      requires Trusted(Current().cache) && Sound(w)
      modifies this
      ensures DumpEffect(Current(), resolved, escaped) == Retried(old(Current()), files, first, w)
    {
      var names := first;
      resolved := [first];
      escaped := None;
      if names == [] {
        // no asset found: perhaps a new file, so rebuild by force and resolve once more
        var r := GetSourceToAssetMap(true, w);
        if r.Err? && r.error.DepthExceeded? {
          return resolved, Some(r.error);
        }
        if r.Err? {
          ReportError(r.error.Message());
          return;
        }
        var m := r.value;
        names := AssetsToDump(files, m, RankOf(m).0, RankOf(m).1);
        resolved := resolved + [names];
      }
      DumpAndReport(resolved, names, w);
    }

    /** The dump loop with its catch block. */
    method DumpAndReport(resolved: seq<seq<string>>, names: seq<string>, w: World)
      modifies this`dumped, this`stderr
      ensures DumpEffect(Current(), resolved, None) == Finish(old(Current()), resolved, names, w)
    {
      var failure := DumpNames(names, w);
      if failure.Some? {
        ReportError(failure.value);
      } else {
        assert stderr + [] == stderr;
      }
    }

    /**
     * One command line that is neither false nor `quit`, followed by the commands
     * `rest` still to come on the connection.
     */
    method Handle(cmd: string, ghost rest: seq<string>, force: bool, w: World)
      returns (forceAfter: bool, crash: Option<BuildError>)
      requires Trusted(Current().cache) && Sound(w)
      requires cmd != "quit"
      modifies this
      ensures Trusted(Current().cache)
      ensures crash.Some? ==> Perform(old(Current()), Requests([cmd] + rest, force), w) == Step(Current(), crash)
      ensures crash.None? ==>
        && Perform(old(Current()), Requests([cmd] + rest, force), w) == Perform(Current(), Requests(rest, forceAfter), w)
        && ForceAfter([cmd] + rest, force) == ForceAfter(rest, forceAfter)
    {
      ServeStep(Current(), cmd, rest, force, w);
      assert [cmd][1..] == [];
      if cmd == "refresh" {
        var r := GetSourceToAssetMap(true, w);
        crash := if r.Err? then Some(r.error) else None;
        forceAfter := force;
      } else {
        var _, escaped := DoDumpAssets([cmd], force, w);
        crash := escaped;
        forceAfter := false;
      }
    }

    /**
     * One pass of the connection loop: read line `j`, trim it, and stop on a false
     * value, close the client on `quit`, or handle the command.
     */
    method ServeLine(lines: seq<string>, j: nat, ghost pending: seq<string>, force: bool, w: World)
      returns (open: bool, forceAfter: bool, crash: Option<BuildError>, ghost later: seq<string>)
      requires Trusted(Current().cache) && Sound(w)
      requires j < |lines| && pending == Commands(lines[j..])
      modifies this
      ensures Trusted(Current().cache)
      ensures later == if open then Commands(lines[j + 1..]) else []
      ensures crash.Some? ==> Perform(old(Current()), Requests(pending, force), w) == Step(Current(), crash)
      ensures crash.None? ==>
        && Perform(old(Current()), Requests(pending, force), w) == Perform(Current(), Requests(later, forceAfter), w)
        && ForceAfter(pending, force) == ForceAfter(later, forceAfter)
    {
      var cmd := Trim(lines[j]);
      CommandsAt(lines, j);
      crash := None;
      forceAfter := force;
      later := [];
      if IsFalsy(cmd) {
        open := false;
      } else if cmd == "quit" {
        // the client is closed, so the next read returns false
        QuitRequestsNothing(force);
        open := false;
      } else {
        open := true;
        later := Commands(lines[j + 1..]);
        forceAfter, crash := Handle(cmd, later, force, w);
      }
    }

    /** The connection loop for one client: read, trim, dispatch, until a false line. */
    method ServeConnection(lines: seq<string>, force: bool, w: World) returns (forceAfter: bool, crash: Option<BuildError>)
      requires Trusted(Current().cache) && Sound(w)
      modifies this
      ensures Trusted(Current().cache)
      ensures Step(Current(), crash) == Perform(old(Current()), Requests(Commands(lines), force), w)
      ensures crash.None? ==> forceAfter == ForceAfter(Commands(lines), force)
    {
      forceAfter := force;
      crash := None;
      var j := 0;
      ghost var pending := Commands(lines);
      assert lines[0..] == lines;
      while j < |lines|
        invariant 0 <= j <= |lines|
        invariant Trusted(Current().cache)
        invariant pending == Commands(lines[j..])
        invariant Perform(old(Current()), Requests(Commands(lines), force), w)
          == Perform(Current(), Requests(pending, forceAfter), w)
        invariant ForceAfter(Commands(lines), force) == ForceAfter(pending, forceAfter)
      {
        var open, c;
        open, forceAfter, c, pending := ServeLine(lines, j, pending, forceAfter, w);
        if c.Some? {
          crash := c;
          return;
        }
        if !open {
          break;
        }
        j := j + 1;
      }
      assert pending == [];
    }

    /**
     * doRunServer over the connections it accepts: a bind failure throws before
     * anything else happens; otherwise every connection is served in turn, with
     * `force` carried across them, until an exception escapes.
     */
    method RunServer(bindError: Option<string>, connections: seq<seq<string>>, force: bool, w: World)
      returns (outcome: ServerOutcome)
      requires Trusted(Current().cache) && Sound(w)
      modifies this
      ensures bindError.Some? ==>
        outcome == BindFailed("Could not bind to socket: " + bindError.value) && Current() == old(Current())
      ensures bindError.None? ==>
        var t := Perform(old(Current()), Requests(AllCommands(connections), force), w);
        && Current() == t.after
        && (t.crash.Some? ==> outcome == Crashed(t.crash.value))
        && (t.crash.None? ==> outcome == Listening(ForceAfter(AllCommands(connections), force)))
    {
      if bindError.Some? {
        return BindFailed("Could not bind to socket: " + bindError.value);
      }
      var f := force;
      var k := 0;
      while k < |connections|
        invariant 0 <= k <= |connections|
        invariant Trusted(Current().cache)
        invariant Perform(old(Current()), Requests(AllCommands(connections), force), w)
          == Perform(Current(), Requests(AllCommands(connections[k..]), f), w)
        invariant ForceAfter(AllCommands(connections), force) == ForceAfter(AllCommands(connections[k..]), f)
      {
        var cmds := Commands(connections[k]);
        var later := AllCommands(connections[k + 1..]);
        assert connections[k..][1..] == connections[k + 1..];
        assert AllCommands(connections[k..]) == cmds + later;
        RequestsAppend(cmds, later, f);
        ForceAfterAppend(cmds, later, f);
        PerformAppend(Current(), Requests(cmds, f), Requests(later, ForceAfter(cmds, f)), w);
        var f', crash := ServeConnection(connections[k], f, w);
        if crash.Some? {
          return Crashed(crash.value);
        }
        f := f';
        k := k + 1;
      }
      assert connections[k..] == [];
      return Listening(f);
    }
  }
}
