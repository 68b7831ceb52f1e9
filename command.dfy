/**
  `CrudGenerateCommand`: the artifacts `handle` writes, the replacement map
  it rebinds between them, `generateFile` (skip an existing file unless
  `--force`), and the route lines `appendWebRoute` and `appendApiRoute` add
  at most once.
 */
module CrudCommand {
  import opened Php
  import opened Laravel
  import opened FieldDsl
  import opened FieldCompiler
  import opened Naming
  import opened Files
  import opened Emission
  import R = Replacements

  /** The argument and options of `crud:generate`. */
  datatype Invocation = Invocation(
    name: string,
    fields: Option<string>,   // --fields=
    force: bool,              // --force
    api: bool,                // --api
    softDeletes: bool,        // --soft-deletes
    search: bool,             // --search
    only: Option<string>)     // --only= (declared, never read)

  // ---------------------------------------------------------------------------
  // Replacement values
  // ---------------------------------------------------------------------------

  const SoftDeletesImportLine: string := "use Illuminate\\Database\\Eloquent\\SoftDeletes;"
  const SoftDeletesTraitText: string := ", SoftDeletes"
  const SoftDeletesColumn: string := "$table->softDeletes();"

  /** The search fragments are generated only for `--search` without `--api`. */
  predicate SearchEnabled(inv: Invocation) {
    inv.search && !inv.api
  }

  function StoreRequestClass(n: Names): string {
    "Store" + n.modelName + "Request"
  }

  function UpdateRequestClass(n: Names): string {
    "Update" + n.modelName + "Request"
  }

  function ControllerClassName(n: Names): string {
    n.modelName + "Controller"
  }

  /** The fragments `GeneratorService` computes for one run. */
  datatype Fragments = Fragments(
    fillable: string, schema: string, rules: string,
    formFields: string, tableHeaders: string, tableBody: string, showFields: string,
    searchLogic: string, searchInput: string)

  /**
    The fragments of a run: the search predicate and the search form are
    generated only for `--search` without `--api`, and are "" otherwise.
   */
  function RunFragments(str: Str, inv: Invocation, n: Names, fields: seq<Field>): Fragments {
    var c := ViewContext(str, n.modelVariable);
    Fragments(
      GenerateFillable(fields), Schema(fields), Rules(fields),
      FormFields(c, fields), TableHeaders(str, fields), TableBody(n.modelVariable, fields), ShowFields(c, fields),
      if SearchEnabled(inv) then SearchLogic(fields) else "",
      if SearchEnabled(inv) then GenerateSearchInput(n.routeBase) else "")
  }

  /** The model and migration entries of the first map. */
  function ModelEntries(inv: Invocation, n: Names, fr: Fragments): (b: R.Bindings)
    ensures |b| == 9
  {
    [ (R.Namespace, n.modelNamespace),
      (R.Class, n.modelName),
      (R.Table, n.table),
      (R.Fillable, fr.fillable),
      (R.Schema, fr.schema),
      (R.SoftDeletesImport, if inv.softDeletes then SoftDeletesImportLine else ""),
      (R.SoftDeletesTrait, if inv.softDeletes then SoftDeletesTraitText else ""),
      (R.SoftDeletes, if inv.softDeletes then SoftDeletesColumn else ""),
      (R.Relationships, "") ]
  }

  /** The controller entries of the first map. */
  function ControllerEntries(n: Names, fr: Fragments): (b: R.Bindings)
    ensures |b| == 12
  {
    [ (R.ControllerNamespace, n.controllerNamespace),
      (R.ModelNamespace, n.modelNamespace + "\\" + n.modelName),
      (R.StoreRequestNamespace, n.requestNamespace + "\\" + StoreRequestClass(n)),
      (R.UpdateRequestNamespace, n.requestNamespace + "\\" + UpdateRequestClass(n)),
      (R.StoreRequest, StoreRequestClass(n)),
      (R.UpdateRequest, UpdateRequestClass(n)),
      (R.Model, n.modelName),
      (R.ModelVariable, n.modelVariable),
      (R.ModelVariablePlural, n.modelVariablePlural),
      (R.ViewPath, n.viewPath),
      (R.RouteBase, n.routeBase),
      (R.SearchLogic, fr.searchLogic) ]
  }

  /** The view entries of the first map. */
  function ViewEntries(fr: Fragments): (b: R.Bindings)
    ensures |b| == 5
  {
    [ (R.FormFields, fr.formFields),
      (R.TableHeaders, fr.tableHeaders),
      (R.TableBody, fr.tableBody),
      (R.ShowFields, fr.showFields),
      (R.SearchInput, fr.searchInput) ]
  }

  /** The map of given fragments: model, controller, request and view entries, in that order. */
  function EntriesOf(inv: Invocation, n: Names, fr: Fragments): (b: R.Bindings)
    ensures |b| == 27 && R.DistinctKeys(b)
  {
    ModelEntries(inv, n, fr) + ControllerEntries(n, fr) + [(R.Rules, fr.rules)] + ViewEntries(fr)
  }

  /** The replacement map as `handle` first builds it. */
  function BaseReplacements(str: Str, inv: Invocation, n: Names, fields: seq<Field>): (b: R.Bindings)
    ensures |b| == 27 && R.DistinctKeys(b)
  {
    EntriesOf(inv, n, RunFragments(str, inv, n, fields))
  }

  /** The map for the store request: request namespace, `Store{M}Request`. */
  function StoreRequestReplacements(base: R.Bindings, n: Names): R.Bindings {
    R.Bind(R.Bind(base, R.Namespace, n.requestNamespace), R.Class, StoreRequestClass(n))
  }

  /** The map for the update request: only the class changes again. */
  function UpdateRequestReplacements(base: R.Bindings, n: Names): R.Bindings {
    R.Bind(StoreRequestReplacements(base, n), R.Class, UpdateRequestClass(n))
  }

  /** The map for the controller and, after it, the views. */
  function ControllerReplacements(base: R.Bindings, n: Names): R.Bindings {
    R.Bind(R.Bind(UpdateRequestReplacements(base, n), R.Namespace, n.controllerNamespace), R.Class, ControllerClassName(n))
  }

  /** The first map binds the model's namespace and class. */
  lemma BaseBindsModel(inv: Invocation, n: Names, fr: Fragments)
    ensures R.Lookup(EntriesOf(inv, n, fr), R.Namespace) == Some(n.modelNamespace)
    ensures R.Lookup(EntriesOf(inv, n, fr), R.Class) == Some(n.modelName)
  {
    var m := ModelEntries(inv, n, fr);
    R.LookupAt(m, R.Namespace, 0);
    R.LookupAt(m, R.Class, 1);
    R.LookupFront(m, ControllerEntries(n, fr), [(R.Rules, fr.rules)], ViewEntries(fr), R.Namespace);
    R.LookupFront(m, ControllerEntries(n, fr), [(R.Rules, fr.rules)], ViewEntries(fr), R.Class);
  }

  /**
    `{{namespace}}` and `{{class}}` are rebound in sequence: the request
    namespace with the store and then the update request class, then the
    controller namespace and class. Every other key keeps its first value,
    and all keys keep their places, so every stub is rendered in the same
    placeholder order.
   */
  lemma ReplacementStages(base: R.Bindings, n: Names)
    requires R.Namespace in R.Keys(base) && R.Class in R.Keys(base)
    ensures var store := StoreRequestReplacements(base, n);
      var update := UpdateRequestReplacements(base, n);
      var controller := ControllerReplacements(base, n);
      && R.Lookup(store, R.Namespace) == Some(n.requestNamespace)
      && R.Lookup(store, R.Class) == Some(StoreRequestClass(n))
      && R.Lookup(update, R.Namespace) == Some(n.requestNamespace)
      && R.Lookup(update, R.Class) == Some(UpdateRequestClass(n))
      && R.Lookup(controller, R.Namespace) == Some(n.controllerNamespace)
      && R.Lookup(controller, R.Class) == Some(ControllerClassName(n))
      && R.Keys(store) == R.Keys(base) && R.Keys(update) == R.Keys(base) && R.Keys(controller) == R.Keys(base)
      && forall k :: k != R.Namespace && k != R.Class ==>
           && R.Lookup(store, k) == R.Lookup(base, k)
           && R.Lookup(update, k) == R.Lookup(base, k)
           && R.Lookup(controller, k) == R.Lookup(base, k)
  {
    var b1 := R.Bind(base, R.Namespace, n.requestNamespace);
    var store := R.Bind(b1, R.Class, StoreRequestClass(n));
    var update := R.Bind(store, R.Class, UpdateRequestClass(n));
    var b2 := R.Bind(update, R.Namespace, n.controllerNamespace);
    var controller := R.Bind(b2, R.Class, ControllerClassName(n));
    R.BindKeepsKeys(base, R.Namespace, n.requestNamespace);
    R.BindKeepsKeys(b1, R.Class, StoreRequestClass(n));
    R.BindKeepsKeys(store, R.Class, UpdateRequestClass(n));
    R.BindKeepsKeys(update, R.Namespace, n.controllerNamespace);
    R.BindKeepsKeys(b2, R.Class, ControllerClassName(n));
    R.BindLookup(base, R.Namespace, n.requestNamespace);
    R.BindOther(b1, R.Class, StoreRequestClass(n), R.Namespace);
    R.BindLookup(b1, R.Class, StoreRequestClass(n));
    R.BindOther(store, R.Class, UpdateRequestClass(n), R.Namespace);
    R.BindLookup(store, R.Class, UpdateRequestClass(n));
    R.BindLookup(update, R.Namespace, n.controllerNamespace);
    R.BindOther(b2, R.Class, ControllerClassName(n), R.Namespace);
    R.BindLookup(b2, R.Class, ControllerClassName(n));
    forall k | k != R.Namespace && k != R.Class
      ensures R.Lookup(store, k) == R.Lookup(base, k)
      ensures R.Lookup(update, k) == R.Lookup(base, k)
      ensures R.Lookup(controller, k) == R.Lookup(base, k)
    {
      R.BindOther(base, R.Namespace, n.requestNamespace, k);
      R.BindOther(b1, R.Class, StoreRequestClass(n), k);
      R.BindOther(store, R.Class, UpdateRequestClass(n), k);
      R.BindOther(update, R.Namespace, n.controllerNamespace, k);
      R.BindOther(b2, R.Class, ControllerClassName(n), k);
    }
  }

  /**
    The maps of one run: the first map has 27 distinct keys, among them
    `{{namespace}}` and `{{class}}`, so the rebound maps for the requests
    and the controller keep distinct keys and carry the stages' bindings.
   */
  lemma RunReplacementStages(str: Str, inv: Invocation, n: Names, fields: seq<Field>)
    ensures var base := BaseReplacements(str, inv, n, fields);
      var store := StoreRequestReplacements(base, n);
      var update := UpdateRequestReplacements(base, n);
      var controller := ControllerReplacements(base, n);
      && R.DistinctKeys(store) && R.DistinctKeys(update) && R.DistinctKeys(controller)
      && R.Lookup(store, R.Namespace) == Some(n.requestNamespace)
      && R.Lookup(store, R.Class) == Some(StoreRequestClass(n))
      && R.Lookup(update, R.Class) == Some(UpdateRequestClass(n))
      && R.Lookup(controller, R.Namespace) == Some(n.controllerNamespace)
      && R.Lookup(controller, R.Class) == Some(ControllerClassName(n))
  {
    var base := BaseReplacements(str, inv, n, fields);
    BaseBindsModel(inv, n, RunFragments(str, inv, n, fields));
    assert R.Namespace in R.Keys(base) && R.Class in R.Keys(base);
    ReplacementStages(base, n);
    var b1 := R.Bind(base, R.Namespace, n.requestNamespace);
    var store := R.Bind(b1, R.Class, StoreRequestClass(n));
    var update := R.Bind(store, R.Class, UpdateRequestClass(n));
    var b2 := R.Bind(update, R.Namespace, n.controllerNamespace);
    R.BindDistinct(base, R.Namespace, n.requestNamespace);
    R.BindKeepsKeys(base, R.Namespace, n.requestNamespace);
    R.BindDistinct(b1, R.Class, StoreRequestClass(n));
    R.BindDistinct(store, R.Class, UpdateRequestClass(n));
    R.BindDistinct(update, R.Namespace, n.controllerNamespace);
    R.BindKeepsKeys(update, R.Namespace, n.controllerNamespace);
    R.BindDistinct(b2, R.Class, ControllerClassName(n));
  }

  /** The map binds `{{searchLogic}}` and `{{searchInput}}` to the run's search fragments. */
  lemma EntriesBindSearch(inv: Invocation, n: Names, fr: Fragments)
    ensures R.Lookup(EntriesOf(inv, n, fr), R.SearchLogic) == Some(fr.searchLogic)
    ensures R.Lookup(EntriesOf(inv, n, fr), R.SearchInput) == Some(fr.searchInput)
  {
    var m := ModelEntries(inv, n, fr);
    var c := ControllerEntries(n, fr);
    var r := [(R.Rules, fr.rules)];
    var v := ViewEntries(fr);
    R.LookupAbsent(m, R.SearchLogic);
    R.LookupAbsent(m, R.SearchInput);
    R.LookupAbsent(c, R.SearchInput);
    R.LookupAbsent(r, R.SearchInput);
    R.LookupAt(c, R.SearchLogic, 11);
    R.LookupAt(v, R.SearchInput, 4);
    R.LookupSecond(m, c, r, v, R.SearchLogic);
    R.LookupLast(m, c, r, v, R.SearchInput);
  }

  /**
    The search predicate and the search form are bound to "" unless
    `--search` comes without `--api`; when they are generated, the form is
    never empty, even for fields that give an empty predicate.
   */
  lemma SearchGating(str: Str, inv: Invocation, n: Names, fields: seq<Field>)
    ensures var base := BaseReplacements(str, inv, n, fields);
      && R.Lookup(base, R.SearchLogic) == Some(if SearchEnabled(inv) then SearchLogic(fields) else "")
      && R.Lookup(base, R.SearchInput) == Some(if SearchEnabled(inv) then GenerateSearchInput(n.routeBase) else "")
      && (SearchEnabled(inv) ==> R.Lookup(base, R.SearchInput).value != "")
  {
    EntriesBindSearch(inv, n, RunFragments(str, inv, n, fields));
    SearchFormNonEmpty(n.routeBase);
  }

  /** The search form always has text, whatever the route base. */
  lemma SearchFormNonEmpty(routeBase: string)
    ensures GenerateSearchInput(routeBase) != ""
  {
    assert |SearchFormOpening| > 0;
  }

  // ---------------------------------------------------------------------------
  // Artifacts
  // ---------------------------------------------------------------------------

  /** One `generateFile` call: the stub it reads, where it writes, and with which map. */
  datatype Artifact = Artifact(stub: string, destination: string, bindings: R.Bindings)

  /** The text `generateFile` writes for an artifact: the stub with the map applied. */
  function Content(stubs: string -> string, a: Artifact): string {
    R.Render(stubs(a.stub), a.bindings)
  }

  /** The write an artifact stands for. */
  function Rendered(stubs: string -> string, a: Artifact): Write {
    Write(a.destination, Content(stubs, a))
  }

  /** The writes of a run of artifacts, in order: one per artifact, to its destination. */
  function Renders(stubs: string -> string, arts: seq<Artifact>): (ws: seq<Write>)
    ensures |ws| == |arts| && forall i :: 0 <= i < |arts| ==> ws[i] == Rendered(stubs, arts[i])
    ensures Paths(ws) == Destinations(arts)
  {
    seq(|arts|, i requires 0 <= i < |arts| => Rendered(stubs, arts[i]))
  }

  /** The writes of two runs of artifacts are the writes of each, in order. */
  lemma RendersConcat(stubs: string -> string, a: seq<Artifact>, b: seq<Artifact>)
    ensures Renders(stubs, a + b) == Renders(stubs, a) + Renders(stubs, b)
  {
  }

  /** The destinations of a run of artifacts, in order. */
  function Destinations(arts: seq<Artifact>): (ds: seq<string>)
    ensures |ds| == |arts| && forall i :: 0 <= i < |arts| ==> ds[i] == arts[i].destination
  {
    seq(|arts|, i requires 0 <= i < |arts| => arts[i].destination)
  }

  /** No two artifacts of a run go to the same file. */
  predicate DistinctDestinations(arts: seq<Artifact>) {
    forall i, j :: 0 <= i < j < |arts| ==> arts[i].destination != arts[j].destination
  }

  /** The files a run of artifacts writes are its destinations, whatever the stubs. */
  lemma RendersPaths(stubs: string -> string, arts: seq<Artifact>)
    ensures Paths(Renders(stubs, arts)) == Destinations(arts)
    ensures DistinctDestinations(arts) ==> DistinctPaths(Renders(stubs, arts))
  {
  }

  // ---------------------------------------------------------------------------
  // What handle writes
  // ---------------------------------------------------------------------------

  function ViewArtifact(viewDir: string, bindings: R.Bindings, view: string): Artifact {
    Artifact("views/" + view + ".blade.stub", viewDir + "/" + view + ".blade.php", bindings)
  }

  /** The five view templates, in the order `handle` writes them, all with the controller's map. */
  function ViewArtifacts(viewDir: string, bindings: R.Bindings): (arts: seq<Artifact>)
    ensures |arts| == 5
  {
    [ ViewArtifact(viewDir, bindings, "index"),
      ViewArtifact(viewDir, bindings, "create"),
      ViewArtifact(viewDir, bindings, "edit"),
      ViewArtifact(viewDir, bindings, "show"),
      ViewArtifact(viewDir, bindings, "_form") ]
  }

  /** The model, the migration, the two requests and the controller, each with the map bound when it is written. */
  function CoreArtifacts(n: Names, base: R.Bindings, timestamp: string, api: bool): (arts: seq<Artifact>)
    ensures |arts| == 5
  {
    [ Artifact("model.stub", ModelPath(n), base),
      Artifact("migration.stub", MigrationPath(n, timestamp), base),
      Artifact("request.store.stub", RequestDir(n) + "/" + StoreRequestClass(n) + ".php", StoreRequestReplacements(base, n)),
      Artifact("request.update.stub", RequestDir(n) + "/" + UpdateRequestClass(n) + ".php", UpdateRequestReplacements(base, n)),
      Artifact(if api then "api_controller.stub" else "controller.stub",
        ControllerDir(n) + "/" + ControllerClassName(n) + ".php", ControllerReplacements(base, n)) ]
  }

  /** The artifacts of one run from the names and the first map: the views only without `--api`. */
  function ArtifactList(n: Names, base: R.Bindings, timestamp: string, api: bool): (arts: seq<Artifact>)
    ensures |arts| == if api then 5 else 10
  {
    CoreArtifacts(n, base, timestamp, api)
    + (if api then [] else ViewArtifacts(ViewDir(n), ControllerReplacements(base, n)))
  }

  /**
    The files of one run are distinct and none is a route file: they differ
    in their first characters (`app/M`, `app/Http/R`, `app/Http/C`,
    `database/`, `resources/` against `routes/`), the two requests at the
    first letter of their class, the views at the first letter of their name.
   */
  lemma ArtifactListDistinct(n: Names, base: R.Bindings, timestamp: string, api: bool)
    ensures var arts := ArtifactList(n, base, timestamp, api);
      && DistinctDestinations(arts)
      && WebPath !in Destinations(arts) && ApiPath !in Destinations(arts)
  {
    var core := CoreArtifacts(n, base, timestamp, api);
    CoreDestinationsDistinct(n, base, timestamp, api);
    if api {
      assert ArtifactList(n, base, timestamp, api) == core;
    } else {
      var views := ViewArtifacts(ViewDir(n), ControllerReplacements(base, n));
      StartsWithConcat("resources/views/", ReplaceAll(n.viewPath, ".", "/"));
      ViewDestinationsDistinct(ViewDir(n), ControllerReplacements(base, n));
      DistinctConcat(core, views);
      assert Destinations(core + views) == Destinations(core) + Destinations(views);
    }
  }

  /** The five core files are distinct, start with `a` or `d`, and are no route file. */
  lemma CoreDestinationsDistinct(n: Names, base: R.Bindings, timestamp: string, api: bool)
    ensures var core := CoreArtifacts(n, base, timestamp, api);
      && DistinctDestinations(core)
      && (forall i :: 0 <= i < 5 ==> core[i].destination != [] && core[i].destination[0] != 'r')
      && WebPath !in Destinations(core) && ApiPath !in Destinations(core)
  {
    var core := CoreArtifacts(n, base, timestamp, api);
    var model := ModelPath(n);
    var migration := MigrationPath(n, timestamp);
    var store := RequestDir(n) + "/" + StoreRequestClass(n) + ".php";
    var update := RequestDir(n) + "/" + UpdateRequestClass(n) + ".php";
    var controller := ControllerDir(n) + "/" + ControllerClassName(n) + ".php";
    var ds := [model, migration, store, update, controller];
    assert Destinations(core) == ds;
    CorePathsDistinct(n, timestamp);
    FivePathsDistinct(model, migration, store, update, controller);
  }

  /**
    Five paths told apart by their first, fifth and tenth characters, as
    `CorePathsDistinct` gives them, are distinct and none starts with `r`.
   */
  lemma FivePathsDistinct(model: string, migration: string, store: string, update: string, controller: string)
    requires |model| > 4 && |migration| > 0 && |store| > 9 && |update| > 9 && |controller| > 9
    requires model[0] == 'a' && store[0] == 'a' && update[0] == 'a' && controller[0] == 'a' && migration[0] == 'd'
    requires model[4] == 'M' && store[4] == 'H' && update[4] == 'H' && controller[4] == 'H'
    requires store[9] == 'R' && update[9] == 'R' && controller[9] == 'C'
    requires store != update
    ensures var ds := [model, migration, store, update, controller];
      && (forall i, j :: 0 <= i < j < 5 ==> ds[i] != ds[j])
      && (forall i :: 0 <= i < 5 ==> ds[i] != [] && ds[i][0] != 'r')
  {
  }

  /**
    The model, migration, request and controller files: which of their
    first characters tell them apart, and that none is a route file.
   */
  lemma CorePathsDistinct(n: Names, timestamp: string)
    ensures var model := ModelPath(n);
      var migration := MigrationPath(n, timestamp);
      var store := RequestDir(n) + "/" + StoreRequestClass(n) + ".php";
      var update := RequestDir(n) + "/" + UpdateRequestClass(n) + ".php";
      var controller := ControllerDir(n) + "/" + ControllerClassName(n) + ".php";
      && model[0] == 'a' && store[0] == 'a' && update[0] == 'a' && controller[0] == 'a' && migration[0] == 'd'
      && model[4] == 'M' && store[4] == 'H' && update[4] == 'H' && controller[4] == 'H'
      && store[9] == 'R' && update[9] == 'R' && controller[9] == 'C'
      && store != update
  {
    var store := RequestDir(n) + "/" + StoreRequestClass(n) + ".php";
    var update := RequestDir(n) + "/" + UpdateRequestClass(n) + ".php";
    var controller := ControllerDir(n) + "/" + ControllerClassName(n) + ".php";
    assert ModelPath(n)[0] == 'a' && ModelPath(n)[4] == 'M';
    assert MigrationPath(n, timestamp)[0] == 'd';
    assert store[0] == 'a' && store[4] == 'H' && store[9] == 'R' by {
      FileInPrefixedDirectory("app/Http/Requests", n.prefixSlash, StoreRequestClass(n));
      PrefixChars(store, "app/Http/Requests");
    }
    assert update[0] == 'a' && update[4] == 'H' && update[9] == 'R' by {
      FileInPrefixedDirectory("app/Http/Requests", n.prefixSlash, UpdateRequestClass(n));
      PrefixChars(update, "app/Http/Requests");
    }
    assert controller[0] == 'a' && controller[4] == 'H' && controller[9] == 'C' by {
      FileInPrefixedDirectory("app/Http/Controllers", n.prefixSlash, ControllerClassName(n));
      PrefixChars(controller, "app/Http/Controllers");
    }
    SiblingFiles(RequestDir(n), StoreRequestClass(n), UpdateRequestClass(n));
  }

  /** A text that starts with a prefix has the prefix's characters. */
  lemma PrefixChars(s: string, p: string)
    requires StartsWith(s, p)
    ensures forall k :: 0 <= k < |p| ==> s[k] == p[k]
  {
    forall k | 0 <= k < |p| ensures s[k] == p[k] {
      assert s[..|p|][k] == s[k];
    }
  }

  /** A file in a directory named after a base directory and an optional prefix starts with the base. */
  lemma FileInPrefixedDirectory(base: string, prefixSlash: string, name: string)
    ensures StartsWith(PrefixedDirectory(base, prefixSlash) + "/" + name + ".php", base)
  {
    var dir := PrefixedDirectory(base, prefixSlash);
    StartsWithConcat(base, if Truthy(prefixSlash) then "/" + prefixSlash else "");
    StartsWithExtend(dir, base, "/" + name + ".php");
    assert dir + "/" + name + ".php" == dir + ("/" + name + ".php");
  }

  /** Two files of one directory whose names start differently differ. */
  lemma SiblingFiles(dir: string, a: string, b: string)
    requires a != [] && b != [] && a[0] != b[0]
    ensures dir + "/" + a + ".php" != dir + "/" + b + ".php"
  {
    assert (dir + "/" + a + ".php")[|dir| + 1] == a[0];
    assert (dir + "/" + b + ".php")[|dir| + 1] == b[0];
  }

  /** The five view files are distinct, start with `re`, and are no route file. */
  lemma ViewDestinationsDistinct(viewDir: string, bindings: R.Bindings)
    requires StartsWith(viewDir, "resources/views/")
    ensures var views := ViewArtifacts(viewDir, bindings);
      && DistinctDestinations(views)
      && (forall i :: 0 <= i < 5 ==> |views[i].destination| > 1 && views[i].destination[0] == 'r' && views[i].destination[1] == 'e')
      && WebPath !in Destinations(views) && ApiPath !in Destinations(views)
  {
    var ds := Destinations(ViewArtifacts(viewDir, bindings));
    var names := ["index", "create", "edit", "show", "_form"];
    forall i | 0 <= i < 5
      ensures ds[i][0] == 'r' && ds[i][1] == 'e' && |ds[i]| > |viewDir| + 1 && ds[i][|viewDir| + 1] == names[i][0]
    {
      ViewDestinationShape(viewDir, names[i]);
    }
    assert WebPath[1] == 'o' && ApiPath[1] == 'o';
  }

  /** Two runs with distinct files each, and no file in common, form a run with distinct files. */
  lemma DistinctConcat(a: seq<Artifact>, b: seq<Artifact>)
    requires DistinctDestinations(a) && DistinctDestinations(b)
    requires forall i, j :: 0 <= i < |a| && 0 <= j < |b| ==> a[i].destination != b[j].destination
    ensures DistinctDestinations(a + b)
  {
    forall i, j | 0 <= i < j < |a + b|
      ensures (a + b)[i].destination != (a + b)[j].destination
    {
      if j >= |a| && i < |a| {
        assert (a + b)[j] == b[j - |a|];
      }
    }
  }

  /** A view file is `resources/views/...`, and its name starts right after the view directory and a slash. */
  lemma ViewDestinationShape(viewDir: string, view: string)
    requires StartsWith(viewDir, "resources/views/") && view != ""
    ensures var d := viewDir + "/" + view + ".blade.php";
      d[0] == 'r' && d[1] == 'e' && |d| > |viewDir| + 1 && d[|viewDir| + 1] == view[0]
  {
    assert viewDir[..16] == "resources/views/";
    assert viewDir[0] == 'r' && viewDir[1] == 'e';
  }

  /** The artifacts of one run, in the order `handle` writes them. */
  function Artifacts(str: Str, inv: Invocation, timestamp: string): (arts: seq<Artifact>)
    ensures |arts| == if inv.api then 5 else 10
  {
    var n := Derive(str, inv.name);
    ArtifactList(n, BaseReplacements(str, inv, n, ParsedFields(inv.fields)), timestamp, inv.api)
  }

  /** `$controllerNamespace . "\\{$modelName}Controller"` is the class the route names. */
  lemma ControllerClassSpelled(n: Names)
    ensures n.controllerNamespace + "\\" + ControllerClassName(n) == ControllerClass(n)
  {
  }

  /** The file map after `handle`: the artifacts in order, then the route line. */
  function Generated(files: map<string, string>, str: Str, stubs: string -> string, inv: Invocation, timestamp: string): map<string, string> {
    var n := Derive(str, inv.name);
    WithRoute(WriteFiles(files, inv.force, Renders(stubs, Artifacts(str, inv, timestamp))), inv.api, n.routeBase, ControllerClass(n))
  }

  /** The files of one run of `handle` are distinct and none is a route file. */
  lemma ArtifactsDistinct(str: Str, inv: Invocation, timestamp: string)
    ensures var arts := Artifacts(str, inv, timestamp);
      DistinctDestinations(arts) && WebPath !in Destinations(arts) && ApiPath !in Destinations(arts)
  {
    var n := Derive(str, inv.name);
    ArtifactListDistinct(n, BaseReplacements(str, inv, n, ParsedFields(inv.fields)), timestamp, inv.api);
  }

  /**
    What one run of `handle` leaves behind: every artifact's file holds the
    old contents when it existed and `--force` is off, its rendered stub
    otherwise; no other file changes except the route file; the only file
    besides the artifacts that can appear is `routes/api.php`, under
    `--api`; and the route file then holds the route line.
   */
  lemma HandleEffect(files: map<string, string>, str: Str, stubs: string -> string, inv: Invocation, timestamp: string)
    ensures var n := Derive(str, inv.name);
      RunOutcome(files, inv.force, Renders(stubs, Artifacts(str, inv, timestamp)), inv.api, n.routeBase, ControllerClass(n),
        Generated(files, str, stubs, inv, timestamp))
  {
    var n := Derive(str, inv.name);
    var arts := Artifacts(str, inv, timestamp);
    ArtifactsDistinct(str, inv, timestamp);
    RendersPaths(stubs, arts);
    RunEffect(files, inv.force, Renders(stubs, arts), inv.api, n.routeBase, ControllerClass(n));
  }

  /**
    Each file `handle` generates holds its rendered stub, unless it existed
    and `--force` is off, in which case it is left as it was.
   */
  lemma HandleSkipsOrRenders(files: map<string, string>, str: Str, stubs: string -> string, inv: Invocation, timestamp: string, i: nat)
    requires i < |Artifacts(str, inv, timestamp)|
    ensures var a := Artifacts(str, inv, timestamp)[i];
      var r := Generated(files, str, stubs, inv, timestamp);
      && a.destination in r
      && r[a.destination] == if a.destination in files && !inv.force then files[a.destination] else Content(stubs, a)
  {
    HandleEffect(files, str, stubs, inv, timestamp);
    var ws := Renders(stubs, Artifacts(str, inv, timestamp));
    assert ws[i] == Rendered(stubs, Artifacts(str, inv, timestamp)[i]);
  }

  /**
    Running `handle` twice with the same arguments, stubs and timestamp
    leaves the files as one run does: without `--force` every artifact is
    skipped and the route line is already there; with it every artifact is
    rewritten with the text it already holds.
   */
  lemma SecondRunIdempotent(files: map<string, string>, str: Str, stubs: string -> string, inv: Invocation, timestamp: string)
    ensures var once := Generated(files, str, stubs, inv, timestamp);
      Generated(once, str, stubs, inv, timestamp) == once
  {
    var n := Derive(str, inv.name);
    var arts := Artifacts(str, inv, timestamp);
    ArtifactsDistinct(str, inv, timestamp);
    RendersPaths(stubs, arts);
    RunRepeats(files, inv.force, Renders(stubs, arts), inv.api, n.routeBase, ControllerClass(n));
  }

  /** A later run at another second writes another migration file. */
  lemma MigrationPerTimestamp(n: Names, t1: string, t2: string)
    requires |t1| == |t2| && t1 != t2
    ensures MigrationPath(n, t1) != MigrationPath(n, t2)
  {
    var k :| 0 <= k < |t1| && t1[k] != t2[k];
    assert MigrationPath(n, t1)[20 + k] == t1[k];
    assert MigrationPath(n, t2)[20 + k] == t2[k];
  }

  // ---------------------------------------------------------------------------
  // The command
  // ---------------------------------------------------------------------------

  class CrudGenerateCommand {
    const str: Str
    /** The package's stub templates, by name (read-only; not part of the file map). */
    const stubs: string -> string
    const input: Invocation
    const fs: Filesystem

    constructor (str: Str, stubs: string -> string, input: Invocation, fs: Filesystem)
      ensures this.str == str && this.stubs == stubs && this.input == input && this.fs == fs
    {
      this.str := str;
      this.stubs := stubs;
      this.input := input;
      this.fs := fs;
    }

    /** `generateFile($stubName, $destination, $replacements)`. */
    method GenerateFile(stubName: string, destination: string, replacements: R.Bindings)
      modifies fs
      ensures fs.files == WriteFile(old(fs.files), input.force, Rendered(stubs, Artifact(stubName, destination, replacements)))
    {
      if fs.Exists(destination) && !input.force {
        return;
      }
      var content := R.Render(stubs(stubName), replacements);
      fs.Put(destination, content);
    }

    /** One view line of `handle`: `views/V.blade.stub` to `{$viewDir}/V.blade.php`. */
    method GenerateView(viewDir: string, view: string, replacements: R.Bindings)
      modifies fs
      ensures fs.files == WriteFile(old(fs.files), input.force, Rendered(stubs, ViewArtifact(viewDir, replacements, view)))
    {
      GenerateFile("views/" + view + ".blade.stub", viewDir + "/" + view + ".blade.php", replacements);
    }

    /** The five view lines of `handle`, all with the controller's map. */
    method GenerateViews(viewDir: string, replacements: R.Bindings)
      modifies fs
      ensures fs.files == WriteFiles(old(fs.files), input.force, Renders(stubs, ViewArtifacts(viewDir, replacements)))
    {
      WriteFilesFive(fs.files, input.force, Renders(stubs, ViewArtifacts(viewDir, replacements)));
      GenerateView(viewDir, "index", replacements);
      GenerateView(viewDir, "create", replacements);
      GenerateView(viewDir, "edit", replacements);
      GenerateView(viewDir, "show", replacements);
      GenerateView(viewDir, "_form", replacements);
    }

    /** `appendWebRoute($routeBase, $controllerClass)`. */
    method AppendWebRoute(routeBase: string, controllerClass: string)
      modifies fs
      ensures fs.files == WithWebRoute(old(fs.files), WebRouteLine(routeBase, controllerClass))
    {
      var routeLine := WebRouteLine(routeBase, controllerClass);
      if fs.Exists(WebPath) {
        var content := fs.Get(WebPath);
        if !StrContains(content, routeLine) {
          fs.Append(WebPath, "\n" + routeLine);
          assert content + ("\n" + routeLine) == content + "\n" + routeLine;
        }
      }
    }

    /** `appendApiRoute($routeBase, $controllerClass)`. */
    method AppendApiRoute(routeBase: string, controllerClass: string)
      modifies fs
      ensures fs.files == WithApiRoute(old(fs.files), ApiRouteLine(routeBase, controllerClass))
    {
      var routeLine := ApiRouteLine(routeBase, controllerClass);
      if !fs.Exists(ApiPath) {
        fs.Put(ApiPath, ApiHeader);
      }
      var content := fs.Get(ApiPath);
      if !StrContains(content, routeLine) {
        fs.Append(ApiPath, "\n" + routeLine);
        assert content + ("\n" + routeLine) == content + "\n" + routeLine;
      }
    }

    /**
      The replacement map `handle` builds from the parsed fields, before any
      rebinding; the search fragments are empty unless `--search` comes
      without `--api`.
     */
    method BuildReplacements(n: Names, fields: seq<Field>) returns (replacements: R.Bindings)
      ensures replacements == BaseReplacements(str, input, n, fields)
    {
      var softDeletesImport := "";
      var softDeletesTrait := "";
      var softDeletes := "";
      if input.softDeletes {
        softDeletesImport := SoftDeletesImportLine;
        softDeletesTrait := SoftDeletesTraitText;
        softDeletes := SoftDeletesColumn;
      }
      var searchLogic := "";
      var searchInput := "";
      if input.search && !input.api {
        searchLogic := GenerateSearchLogic(fields);
        searchInput := GenerateSearchInput(n.routeBase);
      }
      var schema := GenerateMigrationSchema(fields);
      var rules := GenerateValidationRules(fields, false);
      var formFields := GenerateFormFields(str, fields, n.modelVariable);
      var tableHeaders := GenerateTableHeaders(str, fields);
      var tableBody := GenerateTableBody(fields, n.modelVariable);
      var showFields := GenerateShowFields(str, fields, n.modelVariable);
      replacements :=
        [ (R.Namespace, n.modelNamespace),
          (R.Class, n.modelName),
          (R.Table, n.table),
          (R.Fillable, GenerateFillable(fields)),
          (R.Schema, schema),
          (R.SoftDeletesImport, softDeletesImport),
          (R.SoftDeletesTrait, softDeletesTrait),
          (R.SoftDeletes, softDeletes),
          (R.Relationships, "") ]
        // Controller
        + [ (R.ControllerNamespace, n.controllerNamespace),
          (R.ModelNamespace, n.modelNamespace + "\\" + n.modelName),
          (R.StoreRequestNamespace, n.requestNamespace + "\\" + StoreRequestClass(n)),
          (R.UpdateRequestNamespace, n.requestNamespace + "\\" + UpdateRequestClass(n)),
          (R.StoreRequest, StoreRequestClass(n)),
          (R.UpdateRequest, UpdateRequestClass(n)),
          (R.Model, n.modelName),
          (R.ModelVariable, n.modelVariable),
          (R.ModelVariablePlural, n.modelVariablePlural),
          (R.ViewPath, n.viewPath),
          (R.RouteBase, n.routeBase),
          (R.SearchLogic, searchLogic) ]
        // Request
        + [(R.Rules, rules)]
        // Views
        + [ (R.FormFields, formFields),
          (R.TableHeaders, tableHeaders),
          (R.TableBody, tableBody),
          (R.ShowFields, showFields),
          (R.SearchInput, searchInput) ];
      ghost var fr := Fragments(GenerateFillable(fields), schema, rules, formFields, tableHeaders, tableBody, showFields, searchLogic, searchInput);
      assert fr == RunFragments(str, input, n, fields);
      assert replacements == EntriesOf(input, n, fr);
    }

    /**
      Steps 1 to 4 of `handle`: the model and the migration with the first
      map, the requests after rebinding `{{namespace}}` and `{{class}}`, and
      the controller after rebinding them again; the map as the controller
      saw it comes back for the views.
     */
    method WriteCore(n: Names, replacements: R.Bindings, timestamp: string) returns (rebound: R.Bindings)
      modifies fs
      ensures rebound == ControllerReplacements(replacements, n)
      ensures fs.files == WriteFiles(old(fs.files), input.force, Renders(stubs, CoreArtifacts(n, replacements, timestamp, input.api)))
    {
      rebound := replacements;
      WriteFilesFive(fs.files, input.force, Renders(stubs, CoreArtifacts(n, replacements, timestamp, input.api)));

      // 1. Model, 2. migration
      GenerateFile("model.stub", ModelPath(n), rebound);
      GenerateFile("migration.stub", MigrationPath(n, timestamp), rebound);

      // 3. Requests
      var requestDir := RequestDir(n);
      rebound := R.Bind(rebound, R.Namespace, n.requestNamespace);
      rebound := R.Bind(rebound, R.Class, StoreRequestClass(n));
      GenerateFile("request.store.stub", requestDir + "/" + StoreRequestClass(n) + ".php", rebound);

      rebound := R.Bind(rebound, R.Class, UpdateRequestClass(n));
      GenerateFile("request.update.stub", requestDir + "/" + UpdateRequestClass(n) + ".php", rebound);

      // 4. Controller
      var controllerDir := ControllerDir(n);
      rebound := R.Bind(rebound, R.Namespace, n.controllerNamespace);
      rebound := R.Bind(rebound, R.Class, ControllerClassName(n));
      if input.api {
        GenerateFile("api_controller.stub", controllerDir + "/" + ControllerClassName(n) + ".php", rebound);
      } else {
        GenerateFile("controller.stub", controllerDir + "/" + ControllerClassName(n) + ".php", rebound);
      }
    }

    /** Steps 1 to 5 of `handle`: the core files, then the views with the controller's map (only without `--api`). */
    method WriteArtifacts(n: Names, replacements: R.Bindings, timestamp: string)
      modifies fs
      ensures fs.files == WriteFiles(old(fs.files), input.force, Renders(stubs, ArtifactList(n, replacements, timestamp, input.api)))
    {
      ghost var files0 := fs.files;
      ghost var core := CoreArtifacts(n, replacements, timestamp, input.api);
      var rebound := WriteCore(n, replacements, timestamp);

      // 5. Views
      if !input.api {
        GenerateViews(ViewDir(n), rebound);
        RendersConcat(stubs, core, ViewArtifacts(ViewDir(n), rebound));
        WriteFilesConcat(files0, input.force, Renders(stubs, core), Renders(stubs, ViewArtifacts(ViewDir(n), rebound)));
      } else {
        assert core + [] == core;
      }
    }

    /** `handle()`, with `date('Y_m_d_His')` passed in as `timestamp`. */
    method Handle(timestamp: string)
      modifies fs
      ensures fs.files == Generated(old(fs.files), str, stubs, input, timestamp)
    {
      var n := Derive(str, input.name);
      var fields := ParseFields(input.fields);
      var replacements := BuildReplacements(n, fields);
      WriteArtifacts(n, replacements, timestamp);

      // 6. Routes
      var controllerClass := n.controllerNamespace + "\\" + ControllerClassName(n);
      ControllerClassSpelled(n);
      if input.api {
        AppendApiRoute(n.routeBase, controllerClass);
      } else {
        AppendWebRoute(n.routeBase, controllerClass);
      }
    }
  }
}
