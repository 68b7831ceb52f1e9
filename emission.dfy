/**
  What `CrudGenerateCommand` does to the file map, whatever it writes:
  `generateFile` (an existing file is skipped unless `--force`), a run of
  such calls, and the route lines `appendWebRoute` and `appendApiRoute` add
  at most once.
 */
module Emission {
  import opened Php

  // ---------------------------------------------------------------------------
  // generateFile
  // ---------------------------------------------------------------------------

  /** One `generateFile` call: the destination and the rendered stub it would put there. */
  datatype Write = Write(path: string, text: string)

  /** What the destination of a write holds once it is written over `files`. */
  function Written(files: map<string, string>, force: bool, w: Write): string {
    if w.path in files && !force then files[w.path] else w.text
  }

  /**
    The file map after `generateFile`: the destination exists afterwards,
    every other file keeps its contents, and the destination keeps its old
    contents exactly when it existed and `force` is off; otherwise it holds
    the text.
   */
  function WriteFile(files: map<string, string>, force: bool, w: Write): (r: map<string, string>)
    ensures r.Keys == files.Keys + {w.path}
    ensures forall p :: p in files && p != w.path ==> r[p] == files[p]
    ensures r[w.path] == Written(files, force, w)
  {
    if w.path in files && !force then files else files[w.path := w.text]
  }

  /** Without `force`, an existing destination is skipped: nothing changes. */
  lemma WriteFileSkips(files: map<string, string>, w: Write)
    requires w.path in files
    ensures WriteFile(files, false, w) == files
  {
  }

  /** The file map after a run of `generateFile` calls, in order. */
  function WriteFiles(files: map<string, string>, force: bool, ws: seq<Write>): map<string, string>
    decreases |ws|
  {
    if ws == [] then files
    else WriteFile(WriteFiles(files, force, ws[..|ws| - 1]), force, ws[|ws| - 1])
  }

  /** One more `generateFile` call: the run of the first `k + 1` writes ends with write `k`. */
  lemma WriteFilesStep(files: map<string, string>, force: bool, ws: seq<Write>, k: nat)
    requires k < |ws|
    ensures WriteFiles(files, force, ws[..k + 1]) == WriteFile(WriteFiles(files, force, ws[..k]), force, ws[k])
  {
    assert ws[..k + 1][..k] == ws[..k];
  }

  /** A run of five writes, spelled out call by call. */
  lemma WriteFilesFive(files: map<string, string>, force: bool, ws: seq<Write>)
    requires |ws| == 5
    ensures WriteFiles(files, force, ws)
         == WriteFile(WriteFile(WriteFile(WriteFile(WriteFile(files, force, ws[0]), force, ws[1]), force, ws[2]), force, ws[3]), force, ws[4])
  {
    assert ws[..0] == [];
    WriteFilesStep(files, force, ws, 0);
    var m1 := WriteFile(files, force, ws[0]);
    assert WriteFiles(files, force, ws[..1]) == m1;
    WriteFilesStep(files, force, ws, 1);
    var m2 := WriteFile(m1, force, ws[1]);
    assert WriteFiles(files, force, ws[..2]) == m2;
    WriteFilesStep(files, force, ws, 2);
    var m3 := WriteFile(m2, force, ws[2]);
    assert WriteFiles(files, force, ws[..3]) == m3;
    WriteFilesStep(files, force, ws, 3);
    var m4 := WriteFile(m3, force, ws[3]);
    assert WriteFiles(files, force, ws[..4]) == m4;
    WriteFilesStep(files, force, ws, 4);
    assert WriteFiles(files, force, ws[..5]) == WriteFile(m4, force, ws[4]);
    assert ws[..5] == ws;
  }

  /** Two runs one after the other are one run. */
  lemma {:induction false} WriteFilesConcat(files: map<string, string>, force: bool, a: seq<Write>, b: seq<Write>)
    ensures WriteFiles(files, force, a + b) == WriteFiles(WriteFiles(files, force, a), force, b)
    decreases |b|
  {
    if b == [] {
      assert a + b == a;
    } else {
      assert (a + b)[..|a + b| - 1] == a + b[..|b| - 1];
      WriteFilesConcat(files, force, a, b[..|b| - 1]);
    }
  }

  /** The destinations of a run of writes, in order. */
  function Paths(ws: seq<Write>): (ps: seq<string>)
    ensures |ps| == |ws| && forall i :: 0 <= i < |ws| ==> ps[i] == ws[i].path
  {
    seq(|ws|, i requires 0 <= i < |ws| => ws[i].path)
  }

  /** No two writes of a run go to the same file. */
  predicate DistinctPaths(ws: seq<Write>) {
    forall i, j :: 0 <= i < j < |ws| ==> ws[i].path != ws[j].path
  }

  /** After a run of `generateFile` calls, every file is an old one or a destination of the run. */
  lemma {:induction false} WriteFilesDomain(files: map<string, string>, force: bool, ws: seq<Write>)
    ensures forall p :: p in WriteFiles(files, force, ws) ==> p in files || p in Paths(ws)
    decreases |ws|
  {
    if ws != [] {
      var front := ws[..|ws| - 1];
      WriteFilesDomain(files, force, front);
      assert Paths(ws) == Paths(front) + [ws[|ws| - 1].path];
    }
  }

  /** A run of `generateFile` calls leaves every file that is not one of its destinations as it was. */
  lemma {:induction false} WriteFilesOthers(files: map<string, string>, force: bool, ws: seq<Write>)
    ensures var r := WriteFiles(files, force, ws);
      forall p :: p in files && p !in Paths(ws) ==> p in r && r[p] == files[p]
    decreases |ws|
  {
    if ws != [] {
      var front := ws[..|ws| - 1];
      WriteFilesOthers(files, force, front);
      assert Paths(ws) == Paths(front) + [ws[|ws| - 1].path];
    }
  }

  /**
    In a run of `generateFile` calls to distinct destinations, each
    destination exists afterwards and holds what its own call wrote.
   */
  lemma {:induction false} WriteFilesPaths(files: map<string, string>, force: bool, ws: seq<Write>)
    requires DistinctPaths(ws)
    ensures var r := WriteFiles(files, force, ws);
      forall i :: 0 <= i < |ws| ==> ws[i].path in r && r[ws[i].path] == Written(files, force, ws[i])
    decreases |ws|
  {
    if ws != [] {
      var front := ws[..|ws| - 1];
      var last := ws[|ws| - 1];
      assert DistinctPaths(front) by {
        forall i, j | 0 <= i < j < |front| ensures front[i].path != front[j].path {
          assert front[i] == ws[i] && front[j] == ws[j];
        }
      }
      WriteFilesPaths(files, force, front);
      var mid := WriteFiles(files, force, front);
      assert (last.path in mid <==> last.path in files) && (last.path in mid ==> mid[last.path] == files[last.path]) by {
        WriteFilesDomain(files, force, front);
        WriteFilesOthers(files, force, front);
        forall i | 0 <= i < |front| ensures Paths(front)[i] != last.path {
          assert front[i] == ws[i];
        }
      }
      var r := WriteFile(mid, force, last);
      forall i | 0 <= i < |ws| ensures ws[i].path in r && r[ws[i].path] == Written(files, force, ws[i]) {
        if i < |front| {
          assert ws[i] == front[i] && ws[i].path != last.path;
        }
      }
    }
  }

  /**
    A run changes nothing when every destination exists already and, under
    `force`, already holds the text it would get.
   */
  lemma {:induction false} WriteFilesFixed(files: map<string, string>, force: bool, ws: seq<Write>)
    requires forall i :: 0 <= i < |ws| ==> ws[i].path in files
    requires force ==> forall i :: 0 <= i < |ws| ==> files[ws[i].path] == ws[i].text
    ensures WriteFiles(files, force, ws) == files
    decreases |ws|
  {
    if ws != [] {
      WriteFilesFixed(files, force, ws[..|ws| - 1]);
      var last := ws[|ws| - 1];
      if force {
        assert files[last.path := last.text] == files;
      }
    }
  }

  // ---------------------------------------------------------------------------
  // Routes
  // ---------------------------------------------------------------------------

  const WebPath: string := "routes/web.php"
  const ApiPath: string := "routes/api.php"

  /** The file `appendApiRoute` creates when `routes/api.php` is missing. */
  const ApiHeader: string := "<?php\n\n" + RouteFacadeImport + "\n\n"
  const RouteFacadeImport: string := "use Illuminate\\Support\\Facades\\Route;"

  function WebRouteLine(routeBase: string, controllerClass: string): string {
    "Route::resource('" + routeBase + "', \\" + controllerClass + "::class);"
  }

  function ApiRouteLine(routeBase: string, controllerClass: string): string {
    "Route::apiResource('" + routeBase + "', \\" + controllerClass + "::class);"
  }

  /**
    A route file after `File::append($path, "\n" . $routeLine)` guarded by
    `str_contains`: the old text stays in front, and the line is added at
    the end only when it is missing.
   */
  function AppendOnce(text: string, line: string): (r: string)
    ensures StartsWith(r, text) && StrContains(r, line)
    ensures StrContains(text, line) ==> r == text
    ensures !StrContains(text, line) ==> r == text + "\n" + line
  {
    if StrContains(text, line) then text
    else
      ContainsEnd(text + "\n", line);
      StartsWithConcat(text, "\n" + line);
      AppendAssoc(text, "\n", line);
      text + "\n" + line
  }

  /**
    The file map after `appendWebRoute`: only an existing `routes/web.php`
    that lacks the line changes, by a newline and the line at its end.
   */
  function WithWebRoute(files: map<string, string>, line: string): (r: map<string, string>)
    ensures r.Keys == files.Keys
    ensures forall p :: p in files && p != WebPath ==> r[p] == files[p]
    ensures WebPath in files ==> StrContains(r[WebPath], line)
    ensures WebPath in files ==> r[WebPath] == AppendOnce(files[WebPath], line)
    ensures WebPath in files && !StrContains(files[WebPath], line) ==> r[WebPath] == files[WebPath] + "\n" + line
    ensures WebPath !in files || StrContains(files[WebPath], line) ==> r == files
  {
    if WebPath in files then files[WebPath := AppendOnce(files[WebPath], line)] else files
  }

  /** What `appendApiRoute` appends to: the existing `routes/api.php`, or the header it creates. */
  function ApiBase(files: map<string, string>): string {
    if ApiPath in files then files[ApiPath] else ApiHeader
  }

  /**
    The file map after `appendApiRoute`: `routes/api.php` always exists
    afterwards and holds the line; it is created with the header when
    missing, and the line is added only when absent.
   */
  function WithApiRoute(files: map<string, string>, line: string): (r: map<string, string>)
    ensures r.Keys == files.Keys + {ApiPath}
    ensures forall p :: p in files && p != ApiPath ==> r[p] == files[p]
    ensures StrContains(r[ApiPath], line)
    ensures r[ApiPath] == AppendOnce(ApiBase(files), line)
    ensures !StrContains(ApiBase(files), line) ==> r[ApiPath] == ApiBase(files) + "\n" + line
    ensures ApiPath in files && StrContains(files[ApiPath], line) ==> r == files
  {
    files[ApiPath := AppendOnce(ApiBase(files), line)]
  }

  /** Adding the web route a second time changes nothing. */
  lemma WebRouteIdempotent(files: map<string, string>, line: string)
    ensures WithWebRoute(WithWebRoute(files, line), line) == WithWebRoute(files, line)
  {
  }

  /** Adding the API route a second time changes nothing. */
  lemma ApiRouteIdempotent(files: map<string, string>, line: string)
    ensures WithApiRoute(WithApiRoute(files, line), line) == WithApiRoute(files, line)
  {
  }

  /** A text that holds a needle holds each character of the needle. */
  lemma ContainsChar(haystack: string, needle: string, k: nat)
    requires StrContains(haystack, needle) && k < |needle|
    ensures needle[k] in haystack
  {
    var j := StrPos(haystack, needle).value;
    assert haystack[j..j + |needle|][k] == haystack[j + k];
  }

  /** A missing `routes/api.php` becomes the header, a newline and the route line. */
  lemma ApiRouteCreatesFile(files: map<string, string>, routeBase: string, controllerClass: string)
    requires ApiPath !in files
    ensures WithApiRoute(files, ApiRouteLine(routeBase, controllerClass))[ApiPath]
      == ApiHeader + "\n" + ApiRouteLine(routeBase, controllerClass)
  {
    var line := ApiRouteLine(routeBase, controllerClass);
    assert line[5] == ':';
    assert ':' !in RouteFacadeImport && ':' !in "<?php\n\n";
    if StrContains(ApiHeader, line) {
      ContainsChar(ApiHeader, line, 5);
    }
  }

  /** `appendApiRoute` under `--api`, `appendWebRoute` otherwise. */
  function WithRoute(files: map<string, string>, api: bool, routeBase: string, controllerClass: string): map<string, string> {
    if api then WithApiRoute(files, ApiRouteLine(routeBase, controllerClass))
    else WithWebRoute(files, WebRouteLine(routeBase, controllerClass))
  }

  /** The route file the route step touches. */
  function RoutePath(api: bool): string {
    if api then ApiPath else WebPath
  }

  // ---------------------------------------------------------------------------
  // A whole run
  // ---------------------------------------------------------------------------

  /**
    The outcome of a run of writes over `files` followed by a route line:
    each destination holds what its own call wrote, no other file changes
    except the route file, the only file besides the destinations that can
    appear is `routes/api.php`, and the route file keeps its old text with
    the route line added at its end unless it was there (the web one only
    when it existed; a missing `routes/api.php` starts from its header).
   */
  predicate RunOutcome(files: map<string, string>, force: bool, ws: seq<Write>,
                       api: bool, routeBase: string, controllerClass: string, r: map<string, string>)
  {
    && (forall p :: p in r ==> p in files || p in Paths(ws) || (api && p == ApiPath))
    && (forall i :: 0 <= i < |ws| ==> ws[i].path in r && r[ws[i].path] == Written(files, force, ws[i]))
    && (forall p :: p in files && p !in Paths(ws) && p != RoutePath(api) ==> p in r && r[p] == files[p])
    && (api ==> ApiPath in r && r[ApiPath] == AppendOnce(ApiBase(files), ApiRouteLine(routeBase, controllerClass)))
    && (!api && WebPath in files ==> WebPath in r && r[WebPath] == AppendOnce(files[WebPath], WebRouteLine(routeBase, controllerClass)))
  }

  /** A run of writes to distinct files, none a route file, followed by the route step. */
  lemma RunEffect(files: map<string, string>, force: bool, ws: seq<Write>,
                  api: bool, routeBase: string, controllerClass: string)
    requires DistinctPaths(ws)
    requires WebPath !in Paths(ws) && ApiPath !in Paths(ws)
    ensures RunOutcome(files, force, ws, api, routeBase, controllerClass,
      WithRoute(WriteFiles(files, force, ws), api, routeBase, controllerClass))
  {
    var written := WriteFiles(files, force, ws);
    WriteFilesDomain(files, force, ws);
    WriteFilesOthers(files, force, ws);
    WriteFilesPaths(files, force, ws);
    assert WebPath in written <==> WebPath in files;
    assert WebPath in files ==> written[WebPath] == files[WebPath];
    assert ApiBase(written) == ApiBase(files);
    RouteStepEffect(written, api, routeBase, controllerClass);
    assert forall i :: 0 <= i < |ws| ==> ws[i].path in Paths(ws);
  }

  /**
    The route step adds at most `routes/api.php`, changes no file but the
    route file, and appends the route line to it once (to `routes/web.php`
    only when that file exists).
   */
  lemma RouteStepEffect(files: map<string, string>, api: bool, routeBase: string, controllerClass: string)
    ensures var r := WithRoute(files, api, routeBase, controllerClass);
      && (forall p :: p in r ==> p in files || (api && p == ApiPath))
      && (forall p :: p in files && p != RoutePath(api) ==> p in r && r[p] == files[p])
      && (forall p :: p in files ==> p in r)
      && (api ==> ApiPath in r && r[ApiPath] == AppendOnce(ApiBase(files), ApiRouteLine(routeBase, controllerClass)))
      && (!api && WebPath in files ==> WebPath in r && r[WebPath] == AppendOnce(files[WebPath], WebRouteLine(routeBase, controllerClass)))
  {
  }

  /**
    Repeating a run of writes and the route step over its own outcome
    changes nothing, provided the writes go to distinct files other than
    the route files.
   */
  lemma RunRepeats(files: map<string, string>, force: bool, ws: seq<Write>,
                   api: bool, routeBase: string, controllerClass: string)
    requires DistinctPaths(ws)
    requires WebPath !in Paths(ws) && ApiPath !in Paths(ws)
    ensures var once := WithRoute(WriteFiles(files, force, ws), api, routeBase, controllerClass);
      WithRoute(WriteFiles(once, force, ws), api, routeBase, controllerClass) == once
  {
    var written := WriteFiles(files, force, ws);
    RunEffect(files, force, ws, api, routeBase, controllerClass);
    var once := WithRoute(written, api, routeBase, controllerClass);
    WriteFilesFixed(once, force, ws);
    if api {
      ApiRouteIdempotent(written, ApiRouteLine(routeBase, controllerClass));
    } else {
      WebRouteIdempotent(written, WebRouteLine(routeBase, controllerClass));
    }
  }
}
