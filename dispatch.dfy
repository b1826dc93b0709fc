/**
 * The command language of the dump server (doRunServer). Each connection is read
 * line by line; a line is trimmed, and a trimmed line that PHP treats as false
 * ("" at end of stream, or "0") ends the connection. `refresh` rebuilds the map,
 * `quit` closes the client so that the next read ends the connection, and any
 * other line names a changed file to dump. The `force` flag is handed to the
 * first dump only.
 */
module Dispatch {
  import opened PhpStrings

  /** The commands one connection delivers, given the lines the client sends. */
  function Commands(lines: seq<string>): (cmds: seq<string>)
    ensures |cmds| <= |lines|
    ensures forall c :: c in cmds ==> !IsFalsy(c)
  {
    if lines == [] then []
    else
      var cmd := Trim(lines[0]);
      if IsFalsy(cmd) then []
      else if cmd == "quit" then [cmd]
      else [cmd] + Commands(lines[1..])
  }

  /** The commands are the trimmed lines, in order. */
  lemma {:induction false} CommandsAreTrimmedLines(lines: seq<string>)
    ensures forall i :: 0 <= i < |Commands(lines)| ==> Commands(lines)[i] == Trim(lines[i])
    decreases |lines|
  {
    if lines != [] {
      var cmd := Trim(lines[0]);
      if !IsFalsy(cmd) && cmd != "quit" {
        var rest := Commands(lines[1..]);
        CommandsAreTrimmedLines(lines[1..]);
        assert Commands(lines) == [cmd] + rest;
        forall i | 1 <= i < |Commands(lines)| ensures Commands(lines)[i] == Trim(lines[i]) {
          assert lines[1..][i - 1] == lines[i];
        }
      }
    }
  }

  /**
   * `quit` can only be the last command, and reading stops early only at a line
   * that trims to a false value or after `quit`.
   */
  lemma {:induction false} CommandsStop(lines: seq<string>)
    ensures var cmds := Commands(lines);
      && (forall i :: 0 <= i < |cmds| - 1 ==> cmds[i] != "quit")
      && (|cmds| < |lines| ==> IsFalsy(Trim(lines[|cmds|])) || (cmds != [] && cmds[|cmds| - 1] == "quit"))
    decreases |lines|
  {
    if lines != [] {
      var cmd := Trim(lines[0]);
      if !IsFalsy(cmd) && cmd != "quit" {
        var rest := Commands(lines[1..]);
        CommandsStop(lines[1..]);
        assert Commands(lines) == [cmd] + rest;
        if |rest| < |lines[1..]| {
          assert lines[1..][|rest|] == lines[|rest| + 1];
        }
      }
    }
  }

  /** How reading proceeds at line `j`: stop at a false line, stop after `quit`, otherwise go on. */
  lemma CommandsAt(lines: seq<string>, j: nat)
    requires j < |lines|
    ensures var cmd := Trim(lines[j]);
      Commands(lines[j..]) ==
        if IsFalsy(cmd) then []
        else if cmd == "quit" then ["quit"]
        else [cmd] + Commands(lines[j + 1..])
  {
    assert lines[j..][1..] == lines[j + 1..];
  }

  /** The commands of several connections, one after the other. */
  function AllCommands(connections: seq<seq<string>>): (cmds: seq<string>)
    ensures forall c :: c in cmds ==> !IsFalsy(c)
  {
    if connections == [] then [] else Commands(connections[0]) + AllCommands(connections[1..])
  }

  /** What the server asks of the command for one command line. */
  datatype Request = Refresh | DumpChanged(path: string, force: bool)

  /**
   * The requests a run of commands makes when the server starts with `force`:
   * `quit` makes none, and every dump after the first is unforced.
   */
  function Requests(cmds: seq<string>, force: bool): (rs: seq<Request>)
    ensures |rs| <= |cmds|
    ensures forall i :: 0 <= i < |rs| && rs[i].DumpChanged? ==>
      rs[i].path in cmds && rs[i].path != "refresh" && rs[i].path != "quit"
    ensures forall i :: 0 <= i < |rs| && rs[i].DumpChanged? && rs[i].force ==> force
    ensures forall i, j :: 0 <= i < j < |rs| && rs[i].DumpChanged? && rs[j].DumpChanged? ==> !rs[j].force
  {
    if cmds == [] then []
    else if cmds[0] == "refresh" then [Refresh] + Requests(cmds[1..], force)
    else if cmds[0] == "quit" then Requests(cmds[1..], force)
    else [DumpChanged(cmds[0], force)] + Requests(cmds[1..], false)
  }

  /**
   * The first command that is neither `refresh` nor `quit` is dumped with the
   * starting `force`; the commands before it only refresh, and the ones after
   * it start over unforced.
   */
  lemma FirstDumpCarriesForce(before: seq<string>, path: string, after: seq<string>, force: bool)
    requires forall c :: c in before ==> c == "refresh" || c == "quit"
    requires path != "refresh" && path != "quit"
    ensures Requests(before + [path] + after, force)
      == Requests(before, force) + [DumpChanged(path, force)] + Requests(after, false)
    ensures forall r :: r in Requests(before, force) ==> r.Refresh?
  {
    OnlyRefreshes(before, force);
    RequestsAppend(before, [path] + after, force);
    DumpHead(path, after, force);
    assert before + [path] + after == before + ([path] + after);
    AppendAssoc(Requests(before, force), [DumpChanged(path, force)], Requests(after, false));
  }

  /**
   * Regrouping a concatenation. Dafny knows this fact, but stating it here, away
   * from the quantified contract of Requests, keeps FirstDumpCarriesForce cheap.
   */
  lemma AppendAssoc<T>(a: seq<T>, b: seq<T>, c: seq<T>)
    ensures a + (b + c) == a + b + c
  {
  }

  /** A dump request consumes `force`. */
  lemma DumpHead(path: string, after: seq<string>, force: bool)
    requires path != "refresh" && path != "quit"
    ensures Requests([path] + after, force) == [DumpChanged(path, force)] + Requests(after, false)
  {
    assert ([path] + after)[1..] == after;
  }

  /** Commands that only refresh or quit request refreshes and keep `force`. */
  lemma {:induction false} OnlyRefreshes(cmds: seq<string>, force: bool)
    requires forall c :: c in cmds ==> c == "refresh" || c == "quit"
    ensures ForceAfter(cmds, force) == force
    ensures forall r :: r in Requests(cmds, force) ==> r.Refresh?
    decreases |cmds|
  {
    if cmds != [] {
      assert forall c :: c in cmds[1..] ==> c in cmds;
      OnlyRefreshes(cmds[1..], force);
    }
  }

  /** The value of `force` after the commands: still set only if none of them was a dump. */
  predicate ForceAfter(cmds: seq<string>, force: bool) {
    force && forall c :: c in cmds ==> c == "refresh" || c == "quit"
  }

  /** The command line a request answers. */
  function Line(r: Request): string {
    if r.Refresh? then "refresh" else r.path
  }

  function Lines(rs: seq<Request>): seq<string> {
    if rs == [] then [] else [Line(rs[0])] + Lines(rs[1..])
  }

  /** The commands other than `quit`, in order. */
  function WithoutQuit(cmds: seq<string>): seq<string> {
    if cmds == [] then []
    else (if cmds[0] == "quit" then [] else [cmds[0]]) + WithoutQuit(cmds[1..])
  }

  /** Every command but `quit` makes exactly one request, in order. */
  lemma {:induction false} RequestsFollowCommands(cmds: seq<string>, force: bool)
    ensures Lines(Requests(cmds, force)) == WithoutQuit(cmds)
    decreases |cmds|
  {
    if cmds != [] {
      var f := if cmds[0] == "refresh" || cmds[0] == "quit" then force else false;
      RequestsFollowCommands(cmds[1..], f);
      var rest := Requests(cmds[1..], f);
      if cmds[0] != "quit" {
        var r := if cmds[0] == "refresh" then Refresh else DumpChanged(cmds[0], force);
        assert Requests(cmds, force) == [r] + rest;
        assert ([r] + rest)[1..] == rest;
      }
    }
  }

  /** `force` after one command. */
  function ForceNext(cmd: string, force: bool): bool {
    if cmd == "refresh" || cmd == "quit" then force else false
  }

  lemma ForceAfterStep(a: seq<string>, force: bool)
    requires a != []
    ensures ForceAfter(a, force) == ForceAfter(a[1..], ForceNext(a[0], force))
  {
    assert a[0] in a;
    assert forall c :: c in a <==> c == a[0] || c in a[1..];
  }

  lemma ForceAfterAppend(a: seq<string>, b: seq<string>, force: bool)
    ensures ForceAfter(a + b, force) == ForceAfter(b, ForceAfter(a, force))
  {
    assert forall c :: c in a + b <==> c in a || c in b;
  }

  /** The `force` flag flows from one run of commands into the next. */
  lemma {:induction false} RequestsAppend(a: seq<string>, b: seq<string>, force: bool)
    ensures Requests(a + b, force) == Requests(a, force) + Requests(b, ForceAfter(a, force))
    decreases |a|
  {
    if a == [] {
      assert a + b == b;
    } else {
      assert (a + b)[1..] == a[1..] + b;
      ForceAfterStep(a, force);
      RequestsAppend(a[1..], b, ForceNext(a[0], force));
    }
  }

  /** A run of commands that contains no dump leaves `force` as it was; one that does clears it. */
  lemma ForceConsumed(cmds: seq<string>, force: bool)
    ensures ForceAfter(cmds, force) <==> force && forall r :: r in Requests(cmds, force) ==> r.Refresh?
  {
    if !ForceAfter(cmds, force) && force {
      var c :| c in cmds && c != "refresh" && c != "quit";
      RequestsFollowCommands(cmds, force);
      WithoutQuitKeeps(cmds, c);
      LineOfSome(Requests(cmds, force), c);
    }
    if ForceAfter(cmds, force) {
      RequestsFollowCommands(cmds, force);
      forall r | r in Requests(cmds, force) ensures r.Refresh? {
        LinesHold(Requests(cmds, force), r);
        WithoutQuitFrom(cmds, Line(r));
      }
    }
  }

  lemma {:induction false} WithoutQuitKeeps(cmds: seq<string>, c: string)
    requires c in cmds && c != "quit"
    ensures c in WithoutQuit(cmds)
    decreases |cmds|
  {
    if cmds[0] != c {
      WithoutQuitKeeps(cmds[1..], c);
    }
  }

  lemma {:induction false} WithoutQuitFrom(cmds: seq<string>, c: string)
    requires c in WithoutQuit(cmds)
    ensures c in cmds && c != "quit"
    decreases |cmds|
  {
    if cmds != [] && !(cmds[0] != "quit" && c == cmds[0]) {
      WithoutQuitFrom(cmds[1..], c);
    }
  }

  lemma {:induction false} LinesHold(rs: seq<Request>, r: Request)
    requires r in rs
    ensures Line(r) in Lines(rs)
    decreases |rs|
  {
    if rs[0] != r {
      LinesHold(rs[1..], r);
    }
  }

  lemma {:induction false} LineOfSome(rs: seq<Request>, c: string)
    requires c in Lines(rs) && c != "refresh"
    ensures exists r :: r in rs && r.DumpChanged? && r.path == c
    decreases |rs|
  {
    if Line(rs[0]) != c {
      LineOfSome(rs[1..], c);
      var r :| r in rs[1..] && r.DumpChanged? && r.path == c;
      assert r in rs;
    }
  }
}
