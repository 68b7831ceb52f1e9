/**
  The naming derivation at the top of `CrudGenerateCommand::handle`: one
  slash-separated resource name such as `Admin/Post` becomes the model class,
  the controller and request namespaces and directories, the view path, the
  route base and the table name.
 */
module Naming {
  import opened Php
  import opened Laravel

  /** The characters `trim($name, "/\\")` strips from both ends of the argument. */
  const NameTrim: set<char> := {'/', '\\'}

  /** The argument with slashes and backslashes stripped from both ends. */
  function ResourceInput(name: string): (r: string)
    ensures r == [] || (r[0] !in NameTrim && r[|r| - 1] !in NameTrim)
  {
    Trim(name, NameTrim)
  }

  /** `preg_split('#[\\/]+#', $input)`: the pattern reaches PCRE as `[\/]+`, so it cuts at runs of '/' only. */
  function ResourceParts(name: string): (parts: seq<string>)
    ensures |parts| >= 1
  {
    SplitRuns(ResourceInput(name), '/')
  }

  /** Everything `handle` derives from the resource name. */
  datatype Names = Names(
    modelName: string,
    rawPrefix: seq<string>,
    prefixParts: seq<string>,
    prefixNamespace: string,
    prefixSlash: string,
    modelNamespace: string,
    controllerNamespace: string,
    requestNamespace: string,
    viewPath: string,
    routeBase: string,
    table: string,
    modelVariable: string,
    modelVariablePlural: string)

  const ModelsNamespace: string := "App\\Models"
  const ControllersNamespace: string := "App\\Http\\Controllers"
  const RequestsNamespace: string := "App\\Http\\Requests"

  /** A base namespace, followed by `\PREFIX` only when the prefix is truthy. */
  function PrefixedNamespace(base: string, prefixNamespace: string): string {
    base + (if Truthy(prefixNamespace) then "\\" + prefixNamespace else "")
  }

  /** A base directory, followed by `/PREFIX` only when the prefix is truthy. */
  function PrefixedDirectory(base: string, prefixSlash: string): (d: string)
    ensures StartsWith(d, base)
    ensures d == base <==> !Truthy(prefixSlash)
    ensures Truthy(prefixSlash) ==> d[|base|..] == "/" + prefixSlash
  {
    base + (if Truthy(prefixSlash) then "/" + prefixSlash else "")
  }

  /** The view folder of a model: `plural(snake(M))`. */
  function ModelFolder(str: Str, modelName: string): string {
    str.plural(str.snake(modelName))
  }

  /** `trim(implode('.', [...snake(raw prefix parts), plural(snake(M))]), '.')`. */
  function ViewPathOf(str: Str, rawPrefix: seq<string>, modelName: string): string {
    Trim(Join(Map(rawPrefix, str.snake) + [ModelFolder(str, modelName)], "."), {'.'})
  }

  /** The naming derivation of `handle`. */
  function Derive(str: Str, name: string): (n: Names)
    ensures n.routeBase == n.viewPath
    ensures n.modelNamespace == ModelsNamespace
    ensures n.table == str.snake(str.plural(n.modelName))
    ensures n.viewPath == [] || (n.viewPath[0] != '.' && n.viewPath[|n.viewPath| - 1] != '.')
    ensures |n.prefixParts| == |n.rawPrefix| == |ResourceParts(name)| - 1
    ensures n.controllerNamespace == PrefixedNamespace(ControllersNamespace, n.prefixNamespace)
    ensures n.requestNamespace == PrefixedNamespace(RequestsNamespace, n.prefixNamespace)
  {
    var parts := ResourceParts(name);
    var raw := parts[..|parts| - 1];
    var modelName := str.studly(parts[|parts| - 1]);
    var prefixParts := Map(raw, str.studly);
    var prefixNamespace := Join(prefixParts, "\\");
    var viewPath := ViewPathOf(str, raw, modelName);
    Names(
      modelName, raw, prefixParts, prefixNamespace, Join(prefixParts, "/"),
      ModelsNamespace,
      PrefixedNamespace(ControllersNamespace, prefixNamespace),
      PrefixedNamespace(RequestsNamespace, prefixNamespace),
      viewPath, viewPath,
      str.snake(str.plural(modelName)),
      str.camel(modelName),
      str.camel(str.plural(modelName)))
  }

  /** `app_path("Models/M.php")`. */
  function ModelPath(n: Names): (p: string)
    ensures |p| == 15 + |n.modelName|
    ensures StartsWith(p, "app/Models/") && p[|p| - 4..] == ".php"
    ensures p[11..|p| - 4] == n.modelName
  {
    "app/Models/" + n.modelName + ".php"
  }

  /** `database_path("migrations/TIMESTAMP_create_TABLE_table.php")`. */
  function MigrationPath(n: Names, timestamp: string): (p: string)
    ensures |p| == 38 + |timestamp| + |n.table|
    ensures StartsWith(p, "database/migrations/") && p[|p| - 10..] == "_table.php"
    ensures p[20..20 + |timestamp|] == timestamp
  {
    "database/migrations/" + timestamp + "_create_" + n.table + "_table.php"
  }

  /** `app_path('Http/Requests' . ($prefixSlash ? "/PREFIX" : ''))`. */
  function RequestDir(n: Names): (d: string)
    ensures StartsWith(d, "app/Http/Requests")
    ensures d == "app/Http/Requests" <==> !Truthy(n.prefixSlash)
    ensures Truthy(n.prefixSlash) ==> d[17..] == "/" + n.prefixSlash
  {
    PrefixedDirectory("app/Http/Requests", n.prefixSlash)
  }

  /** `app_path('Http/Controllers' . ($prefixSlash ? "/PREFIX" : ''))`. */
  function ControllerDir(n: Names): (d: string)
    ensures StartsWith(d, "app/Http/Controllers")
    ensures d == "app/Http/Controllers" <==> !Truthy(n.prefixSlash)
    ensures Truthy(n.prefixSlash) ==> d[20..] == "/" + n.prefixSlash
  {
    PrefixedDirectory("app/Http/Controllers", n.prefixSlash)
  }

  /** `resource_path("views/" . str_replace('.', '/', $viewPath))`. */
  function ViewDir(n: Names): (d: string)
    ensures StartsWith(d, "resources/views/") && |d| == 16 + |n.viewPath|
    ensures d[16..] == MapChar(n.viewPath, '.', '/') && '.' !in d[16..]
  {
    ReplaceCharIsMap(n.viewPath, '.', '/');
    StartsWithConcat("resources/views/", MapChar(n.viewPath, '.', '/'));
    "resources/views/" + ReplaceAll(n.viewPath, ".", "/")
  }

  /** The class the generated controller declares, as the route line names it. */
  function ControllerClass(n: Names): string {
    n.controllerNamespace + "\\" + n.modelName + "Controller"
  }

  /**
    The resource name falls apart into at least one piece, none holding a
    '/', which together spell the trimmed name without its slashes; when
    the trimmed name is not empty no piece is empty.
   */
  lemma ResourcePartsShape(name: string)
    ensures var parts := ResourceParts(name);
      && |parts| >= 1
      && (forall i :: 0 <= i < |parts| ==> '/' !in parts[i])
      && Concat(parts) == Without(ResourceInput(name), '/')
      && (ResourceInput(name) != [] ==> forall i :: 0 <= i < |parts| ==> parts[i] != [])
  {
    var input := ResourceInput(name);
    SplitRunsSpells(input, '/');
    if input != [] {
      SplitRunsNonEmpty(input, '/');
    }
  }

  /**
    A backslash inside the name is no separator: without a '/' the whole
    trimmed name, backslashes included, is the model part and there is no prefix.
   */
  lemma BackslashStaysInPart(str: Str, name: string)
    requires '/' !in ResourceInput(name)
    ensures ResourceParts(name) == [ResourceInput(name)]
    ensures Derive(str, name).rawPrefix == []
    ensures Derive(str, name).modelName == str.studly(ResourceInput(name))
  {
    SplitRunsWithoutSep(ResourceInput(name), '/');
  }

  /** Without a prefix the view path is the model folder alone, with no leading dot. */
  lemma ViewPathWithoutPrefix(str: Str, name: string)
    requires Derive(str, name).rawPrefix == []
    ensures var n := Derive(str, name);
      n.viewPath == Trim(ModelFolder(str, n.modelName), {'.'})
  {
    var n := Derive(str, name);
    assert Map(n.rawPrefix, str.snake) + [ModelFolder(str, n.modelName)] == [ModelFolder(str, n.modelName)];
  }

  /** With a prefix the view path is the snake-cased raw prefix parts, dot-joined, then the model folder. */
  lemma ViewPathWithPrefix(str: Str, name: string)
    requires Derive(str, name).rawPrefix != []
    ensures var n := Derive(str, name);
      n.viewPath == Trim(Join(Map(n.rawPrefix, str.snake), ".") + "." + ModelFolder(str, n.modelName), {'.'})
  {
    var n := Derive(str, name);
    JoinSnoc(Map(n.rawPrefix, str.snake), ModelFolder(str, n.modelName), ".");
  }

  /**
    The directories follow the namespaces (PSR-4): when no prefix part holds
    a '\', the request and controller directories are their base
    directories followed by what their namespaces add to the base
    namespace, with every '\' read as '/'.
   */
  lemma DirectoriesMirrorNamespaces(str: Str, name: string)
    requires var n := Derive(str, name);
      forall i :: 0 <= i < |n.prefixParts| ==> '\\' !in n.prefixParts[i]
    ensures var n := Derive(str, name);
      && MapChar(n.prefixNamespace, '\\', '/') == n.prefixSlash
      && (Truthy(n.prefixNamespace) <==> Truthy(n.prefixSlash))
      && ControllerDir(n) == "app/Http/Controllers"
           + MapChar(n.controllerNamespace[|ControllersNamespace|..], '\\', '/')
      && RequestDir(n) == "app/Http/Requests"
           + MapChar(n.requestNamespace[|RequestsNamespace|..], '\\', '/')
  {
    var n := Derive(str, name);
    MapCharJoin(n.prefixParts, '\\', '/');
    MapCharTruthy(n.prefixNamespace, '\\', '/');
    NamespaceDirectory(ControllersNamespace, n.prefixNamespace, "app/Http/Controllers", n.prefixSlash);
    NamespaceDirectory(RequestsNamespace, n.prefixNamespace, "app/Http/Requests", n.prefixSlash);
  }

  lemma NamespaceDirectory(base: string, prefixNamespace: string, dir: string, prefixSlash: string)
    requires MapChar(prefixNamespace, '\\', '/') == prefixSlash
    requires Truthy(prefixNamespace) <==> Truthy(prefixSlash)
    ensures PrefixedDirectory(dir, prefixSlash)
      == dir + MapChar(PrefixedNamespace(base, prefixNamespace)[|base|..], '\\', '/')
  {
    if Truthy(prefixNamespace) {
      assert PrefixedNamespace(base, prefixNamespace)[|base|..] == "\\" + prefixNamespace;
      MapCharConcat("\\", prefixNamespace, '\\', '/');
    } else {
      assert PrefixedNamespace(base, prefixNamespace)[|base|..] == "";
    }
  }
}
