/**
  The runtime half of the naming scheme: the base controllers
  `WebSuperController` and `SuperController` recompute the view key and the
  route name of a resource from the fully qualified name of the concrete
  controller class (`static::class`) and from its `$model` class. Both base
  classes carry the same `controllerPrefixDot`, `view` and `routeName`; they
  differ in how they pick the form request and the redirect target.
 */
module Controllers {
  import opened Php
  import opened Laravel

  /** `'Http\\Controllers\\'`: the namespace part after which the prefix begins. */
  const ControllersNeedle: string := "Http\\Controllers\\"

  /** The root every controller class of the application lives under. */
  const AppControllers: string := "App\\" + ControllersNeedle

  // ---------------------------------------------------------------------------
  // The shared naming helpers
  // ---------------------------------------------------------------------------

  /**
    The part of `controllerPrefixDot` after the needle: `explode('\\', $after)`,
    `array_pop`, `''` if nothing is left, else the snake-cased segments
    joined with '.'.
   */
  function SegmentsPrefix(str: Str, after: string): (prefix: string)
    ensures '\\' !in after ==> prefix == ""
  {
    var segments := Split(after, '\\');
    assert '\\' !in after ==> segments == [after] by {
      if '\\' !in after {
        SplitWithoutSep(after, '\\');
      }
    }
    var kept := segments[..|segments| - 1];
    if kept == [] then "" else Join(Map(kept, str.snake), ".")
  }

  /** `controllerPrefixDot()` for the controller class `cls`. */
  function ControllerPrefixDot(str: Str, cls: string): (prefix: string)
    ensures !StrContains(cls, ControllersNeedle) ==> prefix == ""
  {
    match StrPos(cls, ControllersNeedle)
    case None => ""
    case Some(pos) => SegmentsPrefix(str, cls[pos + |ControllersNeedle|..])
  }

  /** `Str::plural(Str::snake(class_basename($this->model)))`. */
  function ModelViewFolder(str: Str, model: string): string {
    str.plural(str.snake(str.classBasename(model)))
  }

  /** `view($view)`: prefix, a dot only after a truthy prefix, folder, '.', view; leading dots stripped. */
  function ViewKey(str: Str, cls: string, model: string, view: string): (key: string)
    ensures key == [] || key[0] != '.'
  {
    var prefix := ControllerPrefixDot(str, cls);
    LTrim(prefix + (if Truthy(prefix) then "." else "") + ModelViewFolder(str, model) + "." + view, {'.'})
  }

  /** `routeName($action)`: `prefix.` only for a truthy prefix, then folder, '.', action; dots trimmed at both ends. */
  function RouteName(str: Str, cls: string, model: string, action: string): (name: string)
    ensures name == [] || (name[0] != '.' && name[|name| - 1] != '.')
  {
    var prefix := ControllerPrefixDot(str, cls);
    Trim((if Truthy(prefix) then prefix + "." else "") + ModelViewFolder(str, model) + "." + action, {'.'})
  }

  // ---------------------------------------------------------------------------
  // The two base controllers
  // ---------------------------------------------------------------------------

  /** The configuration of a `WebSuperController` subclass; `None` is PHP's `null`. */
  datatype WebController = WebController(
    cls: string,
    model: string,
    request: Option<string>,
    updateRequest: Option<string>,
    redirectRoute: Option<string>)

  /** The configuration of a `SuperController` subclass. */
  datatype SuperController = SuperController(cls: string, model: string, request: Option<string>)

  /** The request an action validates: a configured form request class, or the fallback `Request`. */
  datatype Resolved = FormRequest(requestClass: string) | Fallback

  /** The actions that redirect once they are done. */
  datatype Action = Store | Update | Destroy

  /** A nullable class name used as a condition: set and truthy. */
  predicate Configured(c: Option<string>) {
    c.Some? && Truthy(c.value)
  }

  /** `getRedirectRoute($action)`: the configured route when truthy, else `routeName($action)`. */
  function GetRedirectRoute(str: Str, c: WebController, action: string): (route: string)
    ensures Configured(c.redirectRoute) ==> route == c.redirectRoute.value
    ensures !Configured(c.redirectRoute) ==> route == [] || (route[0] != '.' && route[|route| - 1] != '.')
  {
    if Configured(c.redirectRoute) then c.redirectRoute.value else RouteName(str, c.cls, c.model, action)
  }

  /** Where `store`, `update` and `destroy` of a `WebSuperController` redirect: `getRedirectRoute()`. */
  function WebRedirect(str: Str, c: WebController, a: Action): string {
    GetRedirectRoute(str, c, "index")
  }

  /** Where `store`, `update` and `destroy` of a `SuperController` redirect: `routeName('index')`. */
  function SuperRedirect(str: Str, c: SuperController, a: Action): string {
    RouteName(str, c.cls, c.model, "index")
  }

  /** The class `WebSuperController::resolveRequest` picks: `updateRequest ?? request` for 'update', else `request`. */
  function WebRequestChoice(c: WebController, operation: string): (choice: Option<string>)
    ensures choice == c.request || (operation == "update" && c.updateRequest.Some? && choice == c.updateRequest)
    ensures operation != "update" || c.updateRequest.None? ==> choice == c.request
    ensures operation == "update" && c.updateRequest.Some? ==> choice == c.updateRequest
  {
    if operation == "update" then (if c.updateRequest.Some? then c.updateRequest else c.request)
    else c.request
  }

  /** `WebSuperController::resolveRequest($fallback, $operation)`. */
  function WebResolveRequest(c: WebController, operation: string): (r: Resolved)
    ensures r.Fallback? <==> !Configured(WebRequestChoice(c, operation))
    ensures r.FormRequest? ==> Truthy(r.requestClass) && WebRequestChoice(c, operation) == Some(r.requestClass)
  {
    var choice := WebRequestChoice(c, operation);
    if Configured(choice) then FormRequest(choice.value) else Fallback
  }

  /** `SuperController::resolveRequest($fallback)`. */
  function SuperResolveRequest(c: SuperController): (r: Resolved)
    ensures r.Fallback? <==> !Configured(c.request)
    ensures r.FormRequest? ==> Truthy(r.requestClass) && c.request == Some(r.requestClass)
  {
    if Configured(c.request) then FormRequest(c.request.value) else Fallback
  }

  // ---------------------------------------------------------------------------
  // controllerPrefixDot
  // ---------------------------------------------------------------------------

  /** Only the first occurrence of the needle counts: the prefix is read from the text right after it. */
  lemma PrefixDotAtFirstNeedle(str: Str, cls: string, k: nat)
    requires OccursAt(cls, ControllersNeedle, k)
    requires forall j :: 0 <= j < k ==> !OccursAt(cls, ControllersNeedle, j)
    ensures ControllerPrefixDot(str, cls) == SegmentsPrefix(str, cls[k + |ControllersNeedle|..])
  {
    assert StrPos(cls, ControllersNeedle) == Some(k);
  }

  /**
    Under `App\Http\Controllers\` the prefix is read from what follows, even
    when that text holds `Http\Controllers\` again.
   */
  lemma PrefixDotUnderApp(str: Str, rest: string)
    ensures ControllerPrefixDot(str, AppControllers + rest) == SegmentsPrefix(str, rest)
  {
    var cls := AppControllers + rest;
    assert cls[4..4 + |ControllersNeedle|] == ControllersNeedle;
    forall j | 0 <= j < 4
      ensures !OccursAt(cls, ControllersNeedle, j)
    {
      assert cls[j] == AppControllers[j] != ControllersNeedle[0];
      MismatchAt(cls, ControllersNeedle, j);
    }
    PrefixDotAtFirstNeedle(str, cls, 4);
    assert cls[4 + |ControllersNeedle|..] == rest;
  }

  /**
    Segments without backslashes followed by the class's own name: the last
    segment is dropped and the others are snake-cased and dot-joined.
   */
  lemma SegmentsOfNested(str: Str, parts: seq<string>, leaf: string)
    requires forall i :: 0 <= i < |parts| ==> '\\' !in parts[i]
    requires '\\' !in leaf
    ensures SegmentsPrefix(str, Join(parts + [leaf], "\\"))
         == if parts == [] then "" else Join(Map(parts, str.snake), ".")
  {
    var xs := parts + [leaf];
    forall i | 0 <= i < |xs|
      ensures '\\' !in xs[i]
    {
      if i < |parts| {
        assert xs[i] == parts[i];
      }
    }
    SplitJoin(xs, '\\');
    assert Split(Join(xs, "\\"), '\\') == xs;
    assert xs[..|xs| - 1] == parts;
  }

  /** The prefix of a controller under `App\Http\Controllers\` nested in the namespaces `parts`. */
  lemma PrefixDotOfNested(str: Str, parts: seq<string>, leaf: string)
    requires forall i :: 0 <= i < |parts| ==> '\\' !in parts[i]
    requires '\\' !in leaf
    ensures ControllerPrefixDot(str, AppControllers + Join(parts + [leaf], "\\"))
         == if parts == [] then "" else Join(Map(parts, str.snake), ".")
  {
    PrefixDotUnderApp(str, Join(parts + [leaf], "\\"));
    SegmentsOfNested(str, parts, leaf);
  }

  /** Doc-comment example: `App\Http\Controllers\Admin\AnythingController` gives "admin". */
  lemma PrefixDotExampleAdmin(str: Str)
    requires str.snake("Admin") == "admin"
    ensures ControllerPrefixDot(str, AppControllers + Join(["Admin", "AnythingController"], "\\")) == "admin"
  {
    PrefixDotOfNested(str, ["Admin"], "AnythingController");
    assert ["Admin"] + ["AnythingController"] == ["Admin", "AnythingController"];
    assert Map(["Admin"], str.snake) == ["admin"];
  }

  /** Doc-comment example: `App\Http\Controllers\Admin\V1\AnythingController` gives "admin.v1". */
  lemma PrefixDotExampleNested(str: Str)
    requires str.snake("Admin") == "admin" && str.snake("V1") == "v1"
    ensures ControllerPrefixDot(str, AppControllers + Join(["Admin", "V1", "AnythingController"], "\\")) == "admin.v1"
  {
    PrefixDotOfNested(str, ["Admin", "V1"], "AnythingController");
    assert ["Admin", "V1"] + ["AnythingController"] == ["Admin", "V1", "AnythingController"];
    assert Map(["Admin", "V1"], str.snake) == ["admin", "v1"];
    assert ["admin", "v1"][1..] == ["v1"];
    assert Join(["admin", "v1"], ".") == "admin" + "." + "v1";
  }

  /** Doc-comment example: `App\Http\Controllers\AnythingController` gives "". */
  lemma PrefixDotExampleRoot(str: Str)
    ensures ControllerPrefixDot(str, AppControllers + "AnythingController") == ""
  {
    PrefixDotOfNested(str, [], "AnythingController");
    assert [] + ["AnythingController"] == ["AnythingController"];
  }

  // ---------------------------------------------------------------------------
  // view and routeName
  // ---------------------------------------------------------------------------

  /**
    `view(x)` and `routeName(x)` agree for every `x` that is not empty and does
    not end in '.', unless the prefix is the falsy "0" (which `view` keeps
    and `routeName` drops).
   */
  lemma ViewIsRouteName(str: Str, cls: string, model: string, x: string)
    requires x != [] && x[|x| - 1] != '.'
    requires ControllerPrefixDot(str, cls) != "0"
    ensures ViewKey(str, cls, model, x) == RouteName(str, cls, model, x)
  {
    var prefix := ControllerPrefixDot(str, cls);
    var folder := ModelViewFolder(str, model);
    var s := (if Truthy(prefix) then prefix + "." else "") + folder + "." + x;
    assert prefix + (if Truthy(prefix) then "." else "") + folder + "." + x == s by {
      if Truthy(prefix) {
        assert prefix + "." + folder == (prefix + ".") + folder;
      } else {
        assert prefix == [];
      }
    }
    assert s[|s| - 1] == x[|x| - 1];
    var l := LTrim(s, {'.'});
    LTrimIsSuffix(s, {'.'});
    assert l != [] && l[|l| - 1] == s[|s| - 1];
    assert RTrim(l, {'.'}) == l;
  }

  /** With the empty prefix the key is `folder.x`; with a prefix `p` (truthy, not starting with '.') it is `p.folder.x`. */
  lemma ViewKeyShape(str: Str, cls: string, model: string, x: string)
    requires var folder := ModelViewFolder(str, model);
      folder != [] && folder[0] != '.'
    ensures var prefix := ControllerPrefixDot(str, cls);
      var folder := ModelViewFolder(str, model);
      && (prefix == "" ==> ViewKey(str, cls, model, x) == folder + "." + x)
      && (Truthy(prefix) && prefix[0] != '.' ==> ViewKey(str, cls, model, x) == prefix + "." + folder + "." + x)
  {
  }

  /**
    A controller under `App\Http\Controllers\`, nested in the namespaces
    `parts`, names its views and routes `p.folder.x`, where `p` is the
    snake-cased parts joined with '.' (and is left out, dot included, when
    there are no parts), provided `p` is truthy and does not start with '.',
    the folder is not empty and does not start with '.', and `x` does not
    end in '.'.
   */
  lemma KeysOfNested(str: Str, parts: seq<string>, leaf: string, model: string, x: string)
    requires forall i :: 0 <= i < |parts| ==> '\\' !in parts[i]
    requires '\\' !in leaf
    requires parts != [] ==> var p := Join(Map(parts, str.snake), "."); Truthy(p) && p[0] != '.'
    requires var folder := ModelViewFolder(str, model); folder != [] && folder[0] != '.'
    requires x != [] && x[|x| - 1] != '.'
    ensures var cls := AppControllers + Join(parts + [leaf], "\\");
      var key := (if parts == [] then "" else Join(Map(parts, str.snake), ".") + ".") + ModelViewFolder(str, model) + "." + x;
      ViewKey(str, cls, model, x) == key && RouteName(str, cls, model, x) == key
  {
    var cls := AppControllers + Join(parts + [leaf], "\\");
    PrefixDotOfNested(str, parts, leaf);
    ViewIsRouteName(str, cls, model, x);
    ViewKeyShape(str, cls, model, x);
  }

  /** Doc-comment example: without a prefix, the `index` view and route of `Blog` are `blogs.index`. */
  lemma ViewKeyExampleRoot(str: Str)
    requires str.classBasename("App\\Models\\Blog") == "Blog"
    requires str.snake("Blog") == "blog" && str.plural("blog") == "blogs"
    ensures ViewKey(str, AppControllers + "BlogController", "App\\Models\\Blog", "index") == "blogs" + "." + "index"
    ensures RouteName(str, AppControllers + "BlogController", "App\\Models\\Blog", "index") == "blogs" + "." + "index"
  {
    KeysOfNested(str, [], "BlogController", "App\\Models\\Blog", "index");
    assert [] + ["BlogController"] == ["BlogController"];
  }

  /** Doc-comment example: under `Admin`, the `index` view and route of `Blog` are `admin.blogs.index`. */
  lemma ViewKeyExampleAdmin(str: Str)
    requires str.classBasename("App\\Models\\Blog") == "Blog"
    requires str.snake("Blog") == "blog" && str.plural("blog") == "blogs"
    requires str.snake("Admin") == "admin"
    ensures ViewKey(str, AppControllers + Join(["Admin", "BlogController"], "\\"), "App\\Models\\Blog", "index") == "admin" + "." + "blogs" + "." + "index"
    ensures RouteName(str, AppControllers + Join(["Admin", "BlogController"], "\\"), "App\\Models\\Blog", "index") == "admin" + "." + "blogs" + "." + "index"
  {
    assert Map(["Admin"], str.snake) == ["admin"];
    KeysOfNested(str, ["Admin"], "BlogController", "App\\Models\\Blog", "index");
    assert ["Admin"] + ["BlogController"] == ["Admin", "BlogController"];
  }

  // ---------------------------------------------------------------------------
  // Redirects and form requests
  // ---------------------------------------------------------------------------

  /**
    A web controller redirects every action to its configured route when
    that is truthy, and to `routeName('index')` otherwise.
   */
  lemma WebRedirectTarget(str: Str, c: WebController, a: Action)
    ensures Configured(c.redirectRoute) ==> WebRedirect(str, c, a) == c.redirectRoute.value
    ensures !Configured(c.redirectRoute) ==> WebRedirect(str, c, a) == RouteName(str, c.cls, c.model, "index")
  {
  }

  /**
    Without a truthy override the two base classes redirect alike: a web
    controller and a plain one for the same classes go to the same route
    after every action.
   */
  lemma RedirectsAgree(str: Str, w: WebController, s: SuperController, a: Action, b: Action)
    requires w.cls == s.cls && w.model == s.model
    requires !Configured(w.redirectRoute)
    ensures WebRedirect(str, w, a) == SuperRedirect(str, s, b)
  {
  }

  /**
    `update` uses the update request when one is set, even a falsy one, and
    the store request only when it is `null`; every other operation uses the
    store request. The fallback comes exactly when the choice is not truthy.
   */
  lemma WebResolveCases(c: WebController, operation: string)
    ensures operation != "update" ==> WebRequestChoice(c, operation) == c.request
    ensures operation == "update" && c.updateRequest.Some? ==> WebRequestChoice(c, operation) == c.updateRequest
    ensures operation == "update" && c.updateRequest.None? ==> WebRequestChoice(c, operation) == c.request
    ensures WebResolveRequest(c, operation).Fallback? <==> !Configured(WebRequestChoice(c, operation))
    ensures WebResolveRequest(c, operation).FormRequest? ==> WebResolveRequest(c, operation).requestClass == WebRequestChoice(c, operation).value
  {
  }

  /** An update request set to "" (falsy but not `null`) hides the store request: update falls back. */
  lemma WebEmptyUpdateRequestFallsBack(c: WebController)
    requires c.updateRequest == Some("") && Configured(c.request)
    ensures WebResolveRequest(c, "store") == FormRequest(c.request.value)
    ensures WebResolveRequest(c, "update") == Fallback
  {
  }

  /** A plain controller validates store and update with the same request; the web one does too when no update request is set. */
  lemma ResolveAgrees(w: WebController, s: SuperController, operation: string)
    requires w.request == s.request && w.updateRequest.None?
    ensures WebResolveRequest(w, operation) == SuperResolveRequest(s)
    ensures SuperResolveRequest(s).Fallback? <==> !Configured(s.request)
  {
  }
}
