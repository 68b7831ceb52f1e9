/**
  The generator and the base controllers derive the same names along two
  roads: `handle` builds the view path and the route base from the
  resource name, and a generated controller recomputes them at run time
  from its own class name and its model class. This module proves that
  the two roads meet, under the hypotheses on Laravel's `Str` helpers that
  the derivation needs.
 */
module RoundTrip {
  import opened Php
  import opened Laravel
  import opened Naming
  import opened Controllers

  /** The model class a generated controller declares: `{{modelNamespace}}`, i.e. `App\Models\M`. */
  function ModelClass(n: Names): string {
    n.modelNamespace + "\\" + n.modelName
  }

  /**
    What the round trip needs of the helpers for one resource name: each
    prefix part `p` has `snake(studly(p)) == snake(p)`, its studly form and
    its snake form are truthy, the studly forms and the model class name
    hold no backslash, the snake forms do not start with '.',
    `class_basename` gives back the model class name, and the view folder
    `plural(snake(M))` is not empty and has no dot at either end.
   */
  predicate Conforms(str: Str, name: string) {
    var n := Derive(str, name);
    var folder := ModelFolder(str, n.modelName);
    && (forall i :: 0 <= i < |n.rawPrefix| ==> str.snake(str.studly(n.rawPrefix[i])) == str.snake(n.rawPrefix[i]))
    && (forall i :: 0 <= i < |n.rawPrefix| ==> Truthy(str.studly(n.rawPrefix[i])) && '\\' !in str.studly(n.rawPrefix[i]))
    && (forall i :: 0 <= i < |n.rawPrefix| ==> Truthy(str.snake(n.rawPrefix[i])) && str.snake(n.rawPrefix[i])[0] != '.')
    && '\\' !in n.modelName
    && str.classBasename(ModelClass(n)) == n.modelName
    && folder != [] && folder[0] != '.' && folder[|folder| - 1] != '.'
  }

  /** `App\Http\Controllers` followed by a backslash is the root the runtime looks under. */
  lemma ControllersRoot()
    ensures ControllersNamespace + "\\" == AppControllers
  {
  }

  /**
    The controller class `handle` generates is `App\Http\Controllers\`, then
    the studly prefix parts and `{M}Controller` joined with backslashes,
    as long as the prefix namespace is truthy exactly when there are parts.
   */
  lemma ControllerClassNested(str: Str, name: string)
    requires var n := Derive(str, name); n.prefixParts != [] <==> Truthy(n.prefixNamespace)
    ensures var n := Derive(str, name);
      ControllerClass(n) == AppControllers + Join(n.prefixParts + [n.modelName + "Controller"], "\\")
  {
    var n := Derive(str, name);
    var leaf := n.modelName + "Controller";
    ControllersRoot();
    AppendAssoc(n.controllerNamespace + "\\", n.modelName, "Controller");
    if n.prefixParts == [] {
      assert n.controllerNamespace == ControllersNamespace;
      assert [] + [leaf] == [leaf];
    } else {
      var pn := n.prefixNamespace;
      assert pn == Join(n.prefixParts, "\\");
      JoinSnoc(n.prefixParts, leaf, "\\");
      assert n.controllerNamespace == ControllersNamespace + ("\\" + pn);
      calc {
        ControllerClass(n);
        (ControllersNamespace + ("\\" + pn)) + "\\" + leaf;
        { AppendAssoc(ControllersNamespace, "\\", pn); }
        ((ControllersNamespace + "\\") + pn) + "\\" + leaf;
        (AppControllers + pn) + "\\" + leaf;
        { AppendAssoc(AppControllers, pn, "\\");
          AppendAssoc(AppControllers, pn + "\\", leaf); }
        AppControllers + (pn + "\\" + leaf);
      }
    }
  }

  /** Snake-casing the studly parts gives the snake-cased raw parts, when the helpers commute so. */
  lemma SnakeOfStudly(str: Str, raw: seq<string>)
    requires forall i :: 0 <= i < |raw| ==> str.snake(str.studly(raw[i])) == str.snake(raw[i])
    ensures Map(Map(raw, str.studly), str.snake) == Map(raw, str.snake)
  {
  }

  /**
    The view path and the route base of the generator, spelled out: the
    snake-cased raw parts joined with '.', then '.' and the folder; the
    folder alone without parts.
   */
  lemma ViewPathSpelled(str: Str, name: string)
    requires Conforms(str, name)
    ensures var n := Derive(str, name);
      var folder := ModelFolder(str, n.modelName);
      n.viewPath == (if n.rawPrefix == [] then "" else Join(Map(n.rawPrefix, str.snake), ".") + ".") + folder
  {
    var n := Derive(str, name);
    var folder := ModelFolder(str, n.modelName);
    if n.rawPrefix == [] {
      ViewPathWithoutPrefix(str, name);
      TrimUntouched(folder, {'.'});
    } else {
      ViewPathWithPrefix(str, name);
      var p := Join(Map(n.rawPrefix, str.snake), ".");
      JoinTruthy(Map(n.rawPrefix, str.snake), ".");
      var s := p + "." + folder;
      assert s[0] == p[0] && s[|s| - 1] == folder[|folder| - 1];
      TrimUntouched(s, {'.'});
    }
  }

  /**
    The round trip: the generated controller, at run time, names the view
    and the route of every action `x` (not empty, not ending in '.') as
    the generator's view path and route base followed by `.x`.
   */
  lemma NamesRoundTrip(str: Str, name: string, x: string)
    requires Conforms(str, name)
    requires x != [] && x[|x| - 1] != '.'
    ensures var n := Derive(str, name);
      && RouteName(str, ControllerClass(n), ModelClass(n), x) == n.routeBase + "." + x
      && ViewKey(str, ControllerClass(n), ModelClass(n), x) == n.viewPath + "." + x
  {
    var n := Derive(str, name);
    var raw := n.rawPrefix;
    var parts := n.prefixParts;
    var leaf := n.modelName + "Controller";
    assert parts == Map(raw, str.studly);
    assert forall i :: 0 <= i < |parts| ==> parts[i] == str.studly(raw[i]);
    if parts != [] {
      JoinTruthy(parts, "\\");
      JoinTruthy(Map(raw, str.snake), ".");
    }
    assert n.prefixNamespace == Join(parts, "\\");
    ControllerClassNested(str, name);
    SnakeOfStudly(str, raw);
    assert '\\' !in leaf;
    assert ModelViewFolder(str, ModelClass(n)) == ModelFolder(str, n.modelName);
    KeysOfNested(str, parts, leaf, ModelClass(n), x);
    ViewPathSpelled(str, name);
  }

  /** The `index` route after every redirect of a generated web controller without an override is `routeBase.index`. */
  lemma WebRedirectRoundTrip(str: Str, name: string, c: WebController, a: Action)
    requires Conforms(str, name)
    requires var n := Derive(str, name); c.cls == ControllerClass(n) && c.model == ModelClass(n)
    requires !Configured(c.redirectRoute)
    ensures WebRedirect(str, c, a) == Derive(str, name).routeBase + "." + "index"
  {
    NamesRoundTrip(str, name, "index");
  }

  /** A generated plain controller redirects every action to `routeBase.index`. */
  lemma SuperRedirectRoundTrip(str: Str, name: string, c: SuperController, a: Action)
    requires Conforms(str, name)
    requires var n := Derive(str, name); c.cls == ControllerClass(n) && c.model == ModelClass(n)
    ensures SuperRedirect(str, c, a) == Derive(str, name).routeBase + "." + "index"
  {
    NamesRoundTrip(str, name, "index");
  }

  /** Laravel's view finder: the dots of a view key are directories under `resources/views`. */
  function ViewFile(key: string): string {
    "resources/views/" + ReplaceAll(key, ".", "/") + ".blade.php"
  }

  /** The file of `dir/v` is `resources/views/dir` followed by `/v.blade.php`. */
  lemma ViewFileSpelled(dir: string, v: string)
    ensures "resources/views/" + (dir + "/" + v) + ".blade.php" == ("resources/views/" + dir) + "/" + v + ".blade.php"
  {
    AppendAssoc("resources/views/", dir + "/", v);
    AppendAssoc("resources/views/", dir, "/");
  }

  /**
    The view a generated controller asks for is the file `handle` wrote:
    for a view name without a dot, the file of `view(v)` is
    `{$viewDir}/v.blade.php`.
   */
  lemma ViewFileRoundTrip(str: Str, name: string, v: string)
    requires Conforms(str, name)
    requires v != [] && '.' !in v
    ensures var n := Derive(str, name);
      ViewFile(ViewKey(str, ControllerClass(n), ModelClass(n), v)) == ViewDir(n) + "/" + v + ".blade.php"
  {
    var n := Derive(str, name);
    NamesRoundTrip(str, name, v);
    ReplaceCharSuffix(n.viewPath, v, '.', '/');
    ViewFileSpelled(ReplaceAll(n.viewPath, ".", "/"), v);
  }
}
