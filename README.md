# crud-generator core, modelled in Dafny

`crud:generate` is an Artisan command of a Laravel package. Given a
resource name such as `Admin/Post` and a field list such as
`title:string:nullable,body:text`, it scaffolds the files of a CRUD
module. It writes a model, a migration, two form requests, a controller,
five Blade views and a route line. Each file is a stub template with its
`{{placeholders}}` replaced. The generated controllers extend one of two
base controllers, `WebSuperController` or `SuperController`. At run time
those base controllers work out the view and route names again, this time
from the controller's own class name.

This project models that core and proves properties of it:

- `FieldDsl` (`field_dsl.dfy`) is `GeneratorService::parseFields`, the
  field DSL parser. It also holds a round trip: writing fields in the DSL
  and parsing them back gives the same fields.
- `FieldCompiler` (`field_compiler.dfy`) holds the `generate*` fragment
  builders. Each `foreach` builder is a method with a loop, proved against
  a specification function. Lemmas about that function state order, count,
  options and type dispatch.
- `Naming` (`naming.dfy`) derives the names in `handle`: the model name,
  the namespaces, the directories, the table, and `viewPath`/`routeBase`.
- `Replacements` (`replacements.dfy`) is the replacement map. It is an
  ordered PHP array, updated in place by key. `str_replace` with two
  arrays applies it one placeholder at a time.
- `Files` (`files.dfy`) is the `File` facade over a map from path to
  content. `Emission` (`emission.dfy`) states, as functions, the effect of
  `generateFile` (skip an existing file unless `--force`) and of the two
  route appenders (append a line only if it is absent).
- `CrudCommand` (`command.dfy`) is the command itself. The class
  `CrudGenerateCommand` has `handle`, `generateFile`, `appendWebRoute` and
  `appendApiRoute`, which update the file system it holds. Lemmas about the
  whole run cover the artifact list, the rebinding of the replacement map,
  search and API gating, and a second run changing nothing.
- `Controllers` (`controllers.dfy`) holds `controllerPrefixDot`, `view`,
  `routeName`, `getRedirectRoute` and `resolveRequest` of the two base
  controllers. The two classes have the same `view`, `routeName` and
  `controllerPrefixDot` code, so each is modelled once, over the class
  name and model class of a controller.
- `RoundTrip` (`roundtrip.dfy`) holds the headline theorem. A controller
  generated for a resource name asks, at run time, for the route
  `routeBase.x` and the view `viewPath.x` that the generator derived.
  Its redirects and the view files it asks for match the generated files
  too.

PHP built-ins are written out in `Php` (`php.dfy`): truthiness (`""` and
`"0"` are falsy), `trim`, `explode`, `implode`, `preg_split` on runs of
`/`, `strpos`, `str_contains` and `str_replace`. Laravel's `Str` helpers
(plural, snake, studly, camel, title, class_basename) are fields of the
datatype `Str` in `Laravel` (`laravel.dfy`). Each is an arbitrary total
function. A lemma that needs something of them says so in its `requires`.

Three details of the PHP code that are easy to misread:

- `preg_split('#[\\/]+#', …)` is a single-quoted PHP literal, so PCRE
  receives the class `[\/]`, which matches `/` only. The name is split on
  runs of `/`, and a backslash stays inside its segment
  (`Naming.BackslashStaysInPart`).
- The field type defaults to `"string"` only when the second segment is
  missing. `title:` has type `""`.
- Options are kept verbatim, not trimmed.

## Model

| member | source | states |
|---|---|---|
| FieldDsl.ParseFields | src/Services/GeneratorService.php:9-34 | null, `""` and `"0"` give no fields; otherwise the fields are those of the comma clauses, in order |
| FieldDsl.ParsedFields | src/Services/GeneratorService.php:9-34 | null, `""` and `"0"` give no fields; otherwise at most one field per comma clause, each with a truthy, colon-free name |
| FieldDsl.FieldsOf | src/Services/GeneratorService.php:16-31 | the loop keeps at most one field per clause, and every field it keeps has a truthy, colon-free name |
| FieldDsl.ParseClause | src/Services/GeneratorService.php:19-30 | a clause kept as a field has a truthy name, and its name, type and options hold no colon |
| FieldDsl.BareNameClause | src/Services/GeneratorService.php:19-22 | a clause without a colon gives its trimmed name, type `string` and no options |
| FieldDsl.DropsUnnamedClause | src/Services/GeneratorService.php:24-30 | a clause whose trimmed name is falsy (`""`, `"0"`) is dropped and changes nothing else |
| FieldDsl.OneFieldPerNamedClause | src/Services/GeneratorService.php:16-31 | when every clause is named, there is one field per clause, the i-th from the i-th clause |
| FieldDsl.FieldsOfConcat | src/Services/GeneratorService.php:18-31 | the fields of two runs of clauses are the fields of each, in order, with no deduplication |
| FieldDsl.FieldsOfSnoc | src/Services/GeneratorService.php:18-31 | one more clause adds its field at the end, or nothing when it is unnamed |
| FieldDsl.ClauseRoundTrip | src/Services/GeneratorService.php:19-22 | a field written as `name:type:opt…` parses back to itself when its parts are trimmed and free of `:` and `,` |
| FieldDsl.ClausesParseBack | src/Services/GeneratorService.php:16-22 | every written clause is comma-free and parses back to its field |
| FieldDsl.DslTextTruthy | src/Services/GeneratorService.php:11-13 | the DSL text of one or more fields is never taken for empty input |
| FieldDsl.ClausesFieldsBack | src/Services/GeneratorService.php:16-31 | the loop over the clauses of expressible fields collects exactly those fields, in order |
| FieldDsl.DslRoundTrip | src/Services/GeneratorService.php:9-34 | parsing the comma-joined clauses of expressible fields gives back the same fields, in order, duplicates included |
| FieldCompiler.GenerateMigrationSchema | src/Services/GeneratorService.php:36-56 | the loop computes the schema: one line per field, joined by the 12-space line break |
| FieldCompiler.SchemaConcat | src/Services/GeneratorService.php:53-55 | no fields give `""`; one field gives its line; two lists give their schemas joined by the line break |
| FieldCompiler.SchemaLineShape | src/Services/GeneratorService.php:40-52 | a line is `$table->type('name')`, then `->nullable()` iff nullable, then `->unique()` iff unique, then `;` |
| FieldCompiler.SchemaLineReadsTwoOptions | src/Services/GeneratorService.php:40-52 | a line depends only on name, type and whether `nullable` and `unique` are present |
| FieldCompiler.DefaultIgnored | src/Services/GeneratorService.php:48-50 | a `default` option leaves the line unchanged |
| FieldCompiler.GenerateFillable | src/Services/GeneratorService.php:58-62 | the list is `""` iff there are no fields; one field gives `'name'` |
| FieldCompiler.FillableConcat | src/Services/GeneratorService.php:60-61 | two lists give their items joined by `,` and the 8-space line break, in order |
| FieldCompiler.GenerateValidationRules | src/Services/GeneratorService.php:64-100 | the loop computes the rules: one `'name' => 'chain',` line per field, in order; `isUpdate` has no effect |
| FieldCompiler.RulesConcat | src/Services/GeneratorService.php:96-99 | no fields give `""`; one field gives its line; two lists give their rules joined by the line break |
| FieldCompiler.RuleChainPresence | src/Services/GeneratorService.php:68-94 | the chain starts with `nullable` iff that option is present, else `required`; `unique` never appears |
| FieldCompiler.TypeRulesKnown | src/Services/GeneratorService.php:74-85 | exactly string, integer, boolean, email, date and datetime add a type suffix, of at most two rules |
| FieldCompiler.LabelSource | src/Services/GeneratorService.php:107 | the label text is the name with every `_` turned into a space, of the same length |
| FieldCompiler.GenerateFormFields | src/Services/GeneratorService.php:102-137 | the loop computes one block per field, in order, joined by newlines |
| FieldCompiler.FormFieldsConcat | src/Services/GeneratorService.php:128-136 | no fields give `""`; one field gives its block; two lists give their blocks joined by a newline |
| FieldCompiler.InputByType | src/Services/GeneratorService.php:112-126 | textarea iff text or longtext, checkbox iff boolean, date input iff date or datetime, email or password input iff that type, text input otherwise |
| FieldCompiler.ControlOpeningByType | src/Services/GeneratorService.php:113-126 | the opening chosen for a type is one of the six, each for exactly the types above |
| FieldCompiler.OpeningsDistinct | src/Services/GeneratorService.php:113-125 | the six control openings are pairwise different |
| FieldCompiler.OpeningsExclusive | src/Services/GeneratorService.php:112-126 | a fragment that starts with one opening starts with no other |
| FieldCompiler.FormBlockMentions | src/Services/GeneratorService.php:128-134 | every block holds the field's label and `@error('name')` |
| FieldCompiler.GenerateTableHeaders | src/Services/GeneratorService.php:139-147 | the loop computes one `<th>` cell of the label per field, in order |
| FieldCompiler.GenerateTableBody | src/Services/GeneratorService.php:149-157 | the loop computes one `<td>` cell of `$var->name` per field, in order |
| FieldCompiler.GenerateShowFields | src/Services/GeneratorService.php:159-171 | the loop computes one detail block per field, in order |
| FieldCompiler.ViewListsConcat | src/Services/GeneratorService.php:139-171 | headers, body and show fields give `""` for no fields, one item for one, and item lists joined in order |
| FieldCompiler.SearchableFields | src/Services/GeneratorService.php:175 | the filter keeps only string, text and email fields, never more than there are |
| FieldCompiler.SearchableFieldsConcat | src/Services/GeneratorService.php:175 | the filter keeps input order |
| FieldCompiler.SearchableFieldsEmptyIff | src/Services/GeneratorService.php:175-178 | nothing is kept iff no field is string, text or email |
| FieldCompiler.GenerateSearchLogic | src/Services/GeneratorService.php:173-195 | the loop with its `first` flag computes the search logic |
| FieldCompiler.SearchClausesStep | src/Services/GeneratorService.php:183-191 | one more searchable field appends its clause to the code |
| FieldCompiler.SearchLogicEmptyIff | src/Services/GeneratorService.php:175-178 | the code is `""` iff no field is string, text or email |
| FieldCompiler.SearchClausesShape | src/Services/GeneratorService.php:180-192 | otherwise it is header, one clause per searchable field in order, footer; the first is `where`, every later one `orWhere` |
| FieldCompiler.GenerateSearchInput | src/Services/GeneratorService.php:197-207 | the form starts with the search form opening and contains `route('routeBase.index')` |
| Php.SplitJoin | src/Services/GeneratorService.php:16 | `explode` undoes `implode` over items free of the separator |
| Php.JoinSplit | src/Services/GeneratorService.php:16 | `implode` undoes `explode` |
| Php.SplitRunsSpells | src/Commands/CrudGenerateCommand.php:34 | the segments of the `/`-run split are `/`-free and spell the input without its slashes |
| Php.SplitRunsNonEmpty | src/Commands/CrudGenerateCommand.php:34 | a name not ending in `/` has no empty segment after the first |
| Php.Somes | src/Services/GeneratorService.php:24-30 | keeping the present values gives no more items than there are options, each one present among them |
| Php.ContainsPrefix | src/Http/Controllers/WebSuperController.php:155 | a text that contains a string contains every prefix of it |
| Php.StrPos | src/Http/Controllers/WebSuperController.php:155 | `strpos` is the first place the needle occurs, or none when it never does |
| Naming.ResourceInput | src/Commands/CrudGenerateCommand.php:33 | the trimmed name has no `/` or `\` at either end |
| Naming.ResourcePartsShape | src/Commands/CrudGenerateCommand.php:33-34 | at least one segment; segments are `/`-free, spell the name without slashes, and are non-empty for a non-empty name |
| Naming.BackslashStaysInPart | src/Commands/CrudGenerateCommand.php:33-36 | a name without `/` is one segment, even with a `\` inside: no prefix, and the model is `studly` of the trimmed name |
| Naming.Derive | src/Commands/CrudGenerateCommand.php:33-50 | `routeBase == viewPath` with no dot at either end; model namespace `App\Models`; table `snake(plural(M))`; one prefix part per raw segment; controller and request namespaces get `\prefix` only when the prefix is truthy |
| Naming.ViewPathWithoutPrefix | src/Commands/CrudGenerateCommand.php:47-48 | without a prefix the view path is the trimmed folder `plural(snake(M))`, with no leading dot |
| Naming.ViewPathWithPrefix | src/Commands/CrudGenerateCommand.php:47-48 | with a prefix it is the trimmed dot-join of the snake-cased raw parts, `.`, and the folder |
| Naming.DirectoriesMirrorNamespaces | src/Commands/CrudGenerateCommand.php:37-45 | when no prefix part holds a `\`, the request and controller directories are the namespaces with `\` turned into `/` |
| Naming.PrefixedDirectory | src/Commands/CrudGenerateCommand.php:116 | a directory starts with its base, is the base exactly when the prefix is falsy, and otherwise continues with `/` and the prefix |
| Naming.ModelPath | src/Commands/CrudGenerateCommand.php:109 | the model file is `app/Models/`, the model name, `.php` |
| Naming.MigrationPath | src/Commands/CrudGenerateCommand.php:112-113 | the migration file lies in `database/migrations/`, starts with the timestamp and ends in `_table.php` |
| Naming.RequestDir | src/Commands/CrudGenerateCommand.php:116 | the request directory is `app/Http/Requests`, followed by `/` and the slash prefix exactly when that prefix is truthy |
| Naming.ControllerDir | src/Commands/CrudGenerateCommand.php:127 | the controller directory is `app/Http/Controllers`, followed by `/` and the slash prefix exactly when that prefix is truthy |
| Naming.ViewDir | src/Commands/CrudGenerateCommand.php:141 | the view directory is `resources/views/` and the view path with every `.` turned into `/`, so no dot is left after the base |
| Naming.NamespaceDirectory | src/Commands/CrudGenerateCommand.php:44-45 | a directory prefix mirrors a namespace prefix when the two prefixes agree |
| Replacements.Placeholder | src/Commands/CrudGenerateCommand.php:72-106 | every placeholder is `{{…}}`, more than four characters long |
| Replacements.Lookup | src/Commands/CrudGenerateCommand.php:72-106 | a key reads nothing iff it is not in the map |
| Replacements.LookupAt | src/Commands/CrudGenerateCommand.php:72-106 | a key reads the value at its first place |
| Replacements.Bind | src/Commands/CrudGenerateCommand.php:119-131 | `$map[k] = v` keeps the length when `k` is bound and adds one entry when it is not |
| Replacements.BindAppends | src/Commands/CrudGenerateCommand.php:119-131 | binding an unbound key appends it, with its value, at the end |
| Replacements.BindLookup | src/Commands/CrudGenerateCommand.php:119-131 | after `$map[k] = v`, `k` reads `v` |
| Replacements.BindOther | src/Commands/CrudGenerateCommand.php:119-131 | `$map[k] = v` leaves every other key's value as it was |
| Replacements.BindKeepsKeys | src/Commands/CrudGenerateCommand.php:119-131 | rebinding a bound key keeps every key in its place |
| Replacements.BindDistinct | src/Commands/CrudGenerateCommand.php:119-131 | rebinding keeps the keys distinct |
| Replacements.Render | src/Commands/CrudGenerateCommand.php:169 | a stub without `{{` comes back unchanged, whatever the map |
| Replacements.NoBracesNoPlaceholder | src/Commands/CrudGenerateCommand.php:169 | a text without `{{` holds no placeholder, so replacing one changes nothing |
| Replacements.RenderConcat | src/Commands/CrudGenerateCommand.php:169 | `str_replace` with a map is replacing with its first part, then its second |
| Replacements.RenderPlain | src/Commands/CrudGenerateCommand.php:169 | a stub without placeholders comes back unchanged |
| Replacements.RenderSingle | src/Commands/CrudGenerateCommand.php:169 | one binding replaces every occurrence of its placeholder |
| Files.Filesystem.Put | src/Commands/CrudGenerateCommand.php:171 | `File::put` sets one file and no other |
| Files.Filesystem.Append | src/Commands/CrudGenerateCommand.php:183 | `File::append` adds at the end, creating a missing file |
| Emission.WriteFile | src/Commands/CrudGenerateCommand.php:161-173 | writing adds the destination, keeps every other file, and gives it the rendered text unless it existed and `--force` is off |
| Emission.WriteFileSkips | src/Commands/CrudGenerateCommand.php:163-166 | an existing destination without `--force` leaves the files unchanged |
| Emission.WriteFilesConcat | src/Commands/CrudGenerateCommand.php:108-149 | writing two lists is writing the first, then the second |
| Emission.WriteFilesOthers | src/Commands/CrudGenerateCommand.php:161-173 | files that are not destinations are kept |
| Emission.WriteFilesDomain | src/Commands/CrudGenerateCommand.php:161-173 | no file appears other than the existing ones and the destinations |
| Emission.WriteFilesPaths | src/Commands/CrudGenerateCommand.php:161-173 | with distinct destinations, each holds its rendered text, or its old text when skipped |
| Emission.WriteFilesFixed | src/Commands/CrudGenerateCommand.php:161-173 | writing changes nothing when every destination exists and, under `--force`, already holds its text |
| Emission.AppendOnce | src/Commands/CrudGenerateCommand.php:180-188 | the text is kept as a prefix and then contains the line; a text holding the line is unchanged, any other gets `\n` and the line at its end |
| Emission.WithWebRoute | src/Commands/CrudGenerateCommand.php:175-189 | no file is created and no other file changes; an existing web.php keeps its text and gets `\n` and the line appended when the line is absent; a missing web.php or a present line means no change |
| Emission.WithApiRoute | src/Commands/CrudGenerateCommand.php:191-210 | api.php starts from its old text, or the `<?php … use Route;` header when missing, and gets `\n` and the line appended when the line is absent; no other file changes; an existing api.php holding the line means no change |
| Emission.WebRouteIdempotent | src/Commands/CrudGenerateCommand.php:175-189 | appending the web route twice is appending it once |
| Emission.ApiRouteIdempotent | src/Commands/CrudGenerateCommand.php:191-210 | appending the API route twice is appending it once |
| Emission.ApiRouteCreatesFile | src/Commands/CrudGenerateCommand.php:196-205 | a new api.php is the `<?php … use Route;` header, a newline and the line |
| Emission.RunEffect | src/Commands/CrudGenerateCommand.php:108-156 | after the writes and the route step, every artifact holds its skip-or-render text, every untouched file is kept, and the route file is its old text (or the api header) with `\n` and the line appended once |
| Emission.RouteStepEffect | src/Commands/CrudGenerateCommand.php:151-156 | the route step keeps every file other than its route file, adds no web.php, and leaves the route file as its old text with `\n` and the line appended once |
| Emission.RunRepeats | src/Commands/CrudGenerateCommand.php:108-156 | repeating writes and route step after one run changes nothing |
| CrudCommand.EntriesOf | src/Commands/CrudGenerateCommand.php:72-106 | the first map has 27 entries under 27 distinct placeholders |
| CrudCommand.BaseReplacements | src/Commands/CrudGenerateCommand.php:72-106 | the map `handle` builds has 27 entries under 27 distinct placeholders |
| CrudCommand.BaseBindsModel | src/Commands/CrudGenerateCommand.php:73-74 | the first map binds `{{namespace}}` to `App\Models` and `{{class}}` to the model name |
| CrudCommand.ReplacementStages | src/Commands/CrudGenerateCommand.php:119-131 | store request: request namespace and `Store{M}Request`; update: `Update{M}Request`; controller: controller namespace and `{M}Controller`; every key keeps its place and every other key its value |
| CrudCommand.RunReplacementStages | src/Commands/CrudGenerateCommand.php:72-131 | the store, update and controller maps of a run keep distinct keys, and bind the request namespace with `Store{M}Request`, then `Update{M}Request`, then the controller namespace with `{M}Controller` |
| CrudCommand.EntriesBindSearch | src/Commands/CrudGenerateCommand.php:95-105 | `{{searchLogic}}` and `{{searchInput}}` hold the search fragments |
| CrudCommand.SearchGating | src/Commands/CrudGenerateCommand.php:64-70 | both search fragments are `""` unless `--search` without `--api`; `searchInput` then is never `""`, even when `searchLogic` is |
| CrudCommand.SearchFormNonEmpty | src/Services/GeneratorService.php:197-207 | the search form is never empty |
| CrudCommand.Renders | src/Commands/CrudGenerateCommand.php:161-173 | one write per artifact, in order, each the rendered stub; the paths written are exactly the destinations, in order |
| CrudCommand.RendersPaths | src/Commands/CrudGenerateCommand.php:161-173 | the paths written are the destinations, distinct when those are |
| CrudCommand.ArtifactList | src/Commands/CrudGenerateCommand.php:108-149 | five artifacts with `--api`, ten without |
| CrudCommand.ArtifactListDistinct | src/Commands/CrudGenerateCommand.php:108-149 | the destinations are distinct, and none is a route file |
| CrudCommand.FivePathsDistinct | src/Commands/CrudGenerateCommand.php:109-136 | five paths told apart by their first, fifth and tenth characters are distinct and none starts with `r` |
| CrudCommand.CoreDestinationsDistinct | src/Commands/CrudGenerateCommand.php:109-137 | model, migration, requests and controller land in distinct files outside `resources/` |
| CrudCommand.CorePathsDistinct | src/Commands/CrudGenerateCommand.php:109-136 | the five core paths start in app/Models, database, app/Http/Requests and app/Http/Controllers, and the two requests differ |
| CrudCommand.ViewDestinationsDistinct | src/Commands/CrudGenerateCommand.php:141-148 | the five views land in distinct files under `resources/views` |
| CrudCommand.Artifacts | src/Commands/CrudGenerateCommand.php:108-149 | views are generated only without `--api` |
| CrudCommand.ArtifactsDistinct | src/Commands/CrudGenerateCommand.php:108-149 | the artifacts of a run have distinct destinations, none a route file |
| CrudCommand.ControllerClassSpelled | src/Commands/CrudGenerateCommand.php:153-155 | the routed controller class is the controller namespace, `\`, `{M}Controller` |
| CrudCommand.HandleEffect | src/Commands/CrudGenerateCommand.php:31-159 | a run writes each artifact with skip-if-exists, keeps other files, and leaves the route file as its old text (or the api header) with `\n` and the route line appended once |
| CrudCommand.HandleSkipsOrRenders | src/Commands/CrudGenerateCommand.php:161-166 | each artifact's file holds its rendered stub, or its old text when it existed and `--force` is off |
| CrudCommand.SecondRunIdempotent | src/Commands/CrudGenerateCommand.php:31-210 | a second run with the same arguments, stubs and timestamp changes nothing |
| CrudCommand.MigrationPerTimestamp | src/Commands/CrudGenerateCommand.php:112 | two timestamps of one length give two migration files |
| CrudCommand.CrudGenerateCommand.GenerateFile | src/Commands/CrudGenerateCommand.php:161-173 | the file map becomes the skip-or-render write of the stub |
| CrudCommand.CrudGenerateCommand.GenerateView | src/Commands/CrudGenerateCommand.php:144-148 | one view stub is written to `viewDir/v.blade.php` |
| CrudCommand.CrudGenerateCommand.GenerateViews | src/Commands/CrudGenerateCommand.php:139-149 | index, create, edit, show and _form are written in that order |
| CrudCommand.CrudGenerateCommand.AppendWebRoute | src/Commands/CrudGenerateCommand.php:175-189 | the file map becomes the web route step |
| CrudCommand.CrudGenerateCommand.AppendApiRoute | src/Commands/CrudGenerateCommand.php:191-210 | the file map becomes the API route step |
| CrudCommand.CrudGenerateCommand.BuildReplacements | src/Commands/CrudGenerateCommand.php:55-106 | the map built is the 27-entry replacement map of the invocation |
| CrudCommand.CrudGenerateCommand.WriteCore | src/Commands/CrudGenerateCommand.php:108-137 | model, migration, requests and controller are written in order, and the map ends rebound for the controller |
| CrudCommand.CrudGenerateCommand.WriteArtifacts | src/Commands/CrudGenerateCommand.php:108-149 | the whole artifact list is written in order |
| CrudCommand.CrudGenerateCommand.Handle | src/Commands/CrudGenerateCommand.php:31-159 | the file map after `handle` is the one the run specifies |
| Controllers.ViewKey | src/Http/Controllers/WebSuperController.php:118-123 | a view key never starts with `.` |
| Controllers.RouteName | src/Http/Controllers/WebSuperController.php:128-133 | a route name has no `.` at either end |
| Controllers.SegmentsPrefix | src/Http/Controllers/WebSuperController.php:159-168 | text after the needle without a `\` (a controller right under `Http\Controllers\`) gives the prefix `""` |
| Controllers.ControllerPrefixDot | src/Http/Controllers/WebSuperController.php:151-169 | a class name without `Http\Controllers\` has the prefix `""` |
| Controllers.PrefixDotAtFirstNeedle | src/Http/Controllers/SuperController.php:124-131 | only the first occurrence of `Http\Controllers\` counts |
| Controllers.PrefixDotUnderApp | src/Http/Controllers/WebSuperController.php:151-169 | under `App\Http\Controllers\`, the prefix is computed from the rest of the class name |
| Controllers.SegmentsOfNested | src/Http/Controllers/WebSuperController.php:159-168 | dropping the last segment and snake-casing the others gives their dot-join, or `""` when none remain |
| Controllers.PrefixDotOfNested | src/Http/Controllers/SuperController.php:115-139 | the prefix of `App\Http\Controllers\P1\…\Leaf` is `snake(P1).…`, and `""` without parts |
| Controllers.PrefixDotExampleAdmin | src/Http/Controllers/SuperController.php:117 | `App\Http\Controllers\Admin\AnythingController` gives `admin` |
| Controllers.PrefixDotExampleNested | src/Http/Controllers/SuperController.php:118 | `…\Admin\V1\AnythingController` gives `admin.v1` |
| Controllers.PrefixDotExampleRoot | src/Http/Controllers/SuperController.php:119 | `App\Http\Controllers\AnythingController` gives `""` |
| Controllers.ViewIsRouteName | src/Http/Controllers/WebSuperController.php:115-133 | the view key equals the route name for a name without a trailing `.`, unless the prefix is `"0"` |
| Controllers.ViewKeyShape | src/Http/Controllers/SuperController.php:83-93 | the view key is `folder.x` without a prefix and `prefix.folder.x` with one |
| Controllers.KeysOfNested | src/Http/Controllers/SuperController.php:83-105 | for nested controllers, view key and route name are both `prefix.folder.x` |
| Controllers.ViewKeyExampleRoot | src/Http/Controllers/SuperController.php:84-85 | `BlogController` with model `Blog` gives `blogs.index` |
| Controllers.ViewKeyExampleAdmin | src/Http/Controllers/SuperController.php:86 | under `Admin`, it gives `admin.blogs.index` |
| Controllers.GetRedirectRoute | src/Http/Controllers/WebSuperController.php:107-113 | a truthy `redirectRoute` is the route; otherwise the route has no `.` at either end |
| Controllers.WebRedirectTarget | src/Http/Controllers/WebSuperController.php:107-113 | store, update and destroy redirect to a truthy `redirectRoute`, else to `routeName('index')` |
| Controllers.RedirectsAgree | src/Http/Controllers/SuperController.php:46-78 | without an override both base classes redirect every action to the same route |
| Controllers.WebRequestChoice | src/Http/Controllers/WebSuperController.php:140-143 | for `update` the class picked is `updateRequest` when it is not null, else `request`; for any other operation it is `request` |
| Controllers.WebResolveRequest | src/Http/Controllers/WebSuperController.php:138-146 | the fallback is used exactly when the picked class is not truthy; otherwise the picked class is resolved |
| Controllers.SuperResolveRequest | src/Http/Controllers/SuperController.php:110-113 | the fallback is used exactly when `request` is not truthy; otherwise `request` is resolved |
| Controllers.WebResolveCases | src/Http/Controllers/WebSuperController.php:138-146 | `update` picks `updateRequest ?? request`, anything else `request`; a falsy choice gives the fallback |
| Controllers.WebEmptyUpdateRequestFallsBack | src/Http/Controllers/WebSuperController.php:141-145 | an `updateRequest` of `""` is not null, so update falls back while store uses `request` |
| Controllers.ResolveAgrees | src/Http/Controllers/SuperController.php:110-113 | the plain controller uses its truthy `request` for store and update alike, else the fallback |
| RoundTrip.ControllersRoot | src/Commands/CrudGenerateCommand.php:44 | the generator's controller root, followed by `\`, is the root the runtime strips |
| RoundTrip.ControllerClassNested | src/Commands/CrudGenerateCommand.php:36-44 | the generated controller class is `App\Http\Controllers\` + the studly parts and `{M}Controller` joined by `\` |
| RoundTrip.SnakeOfStudly | src/Commands/CrudGenerateCommand.php:36-47 | when `snake(studly(p)) == snake(p)` holds per part, the runtime's snake of the studly parts is the generator's snake of the raw parts |
| RoundTrip.ViewPathSpelled | src/Commands/CrudGenerateCommand.php:47-48 | the view path is the snake-cased raw parts, `.`, and the folder, untouched by the trim |
| RoundTrip.NamesRoundTrip | src/Http/Controllers/WebSuperController.php:118-169 | the generated controller's `routeName(x)` is `routeBase.x` and its `view(x)` is `viewPath.x` |
| RoundTrip.WebRedirectRoundTrip | src/Http/Controllers/WebSuperController.php:107-113 | without an override, a generated web controller redirects to `routeBase.index` |
| RoundTrip.SuperRedirectRoundTrip | src/Http/Controllers/SuperController.php:46-78 | a generated plain controller redirects every action to `routeBase.index` |
| RoundTrip.ViewFileRoundTrip | src/Commands/CrudGenerateCommand.php:141-148 | the file of the view a generated controller asks for is the file `handle` wrote into the view directory |

## Left out

- The Laravel `Str` helpers are not implemented; in particular there is no English pluralizer. They are arbitrary functions, and each lemma lists what it needs of them.
- Directories are not modelled. `File::makeDirectory` (lines 117, 128 and 142 of the command) is left out, and a path in the file map stands for a file whose directory exists.
- Stub templates are a parameter, from stub name to text. The absence of leftover `{{`/`}}` after rendering depends on their contents and is not stated.
- `date('Y_m_d_His')` is a parameter, `timestamp`.
- `app_path`, `database_path`, `resource_path` and `base_path` are modelled as the fixed relative prefixes `app/`, `database/`, `resources/` and `""` (`Naming.ModelPath`, `Naming.MigrationPath`, `Naming.RequestDir`, `Naming.ControllerDir`, `Naming.ViewDir`, `Emission.WebPath`, `Emission.ApiPath`). The lemmas that tell files apart (`CrudCommand.CorePathsDistinct`, `CrudCommand.ArtifactListDistinct`) rely on these prefixes, that is, on an application whose four roots are laid out as Laravel lays them out.
- Console output (`info`, `warn`) is not modelled.
- The `--only` option is declared but never read by `handle`. It is a field of `Invocation` with no effect.
- `PostResource.php` is expected by the feature test but is never written by the command. It is not modelled.
- The CRUD actions of the base controllers are not modelled: ORM calls, responses, the `app()` container, the `method_exists` hooks and `handleFileUploads`. Only the names they use are modelled, and `resolveRequest` returns which class it would resolve.
- `ApiSuperController` is not modelled. It only wraps responses and repeats the web controller's `resolveRequest`.
- `CrudInstallCommand`, the service provider and `config/crud-forms.php` are not modelled: they are registration, a file copy and a table that nothing shown reads.
- HTML and CSS class strings of the fragments are kept as constants around the name, label and type. Their exact markup is not reasoned about.
- How Laravel resolves a dotted `Route::resource` name (the nested-resource convention) is not modelled. `RoundTrip.ViewFile` assumes the view finder's convention that the dots of a view key are directories under `resources/views`.
- FieldCompiler.GenerateValidationRules: the call at CrudGenerateCommand.php:98 passes no `isUpdate`, so the default `false` is used; the parameter has no effect in either case.
- FieldCompiler.GenerateSearchInput: states that the form starts with its opening and contains `route('routeBase.index')`, not the full heredoc text.
- Naming.DirectoriesMirrorNamespaces: requires that no prefix part holds a `\`. The name is split on `/` only, so `Admin\V1/Post` has the single prefix part `Admin\V1` (as far as `studly` keeps the backslash). The namespace is then `App\Http\Controllers\Admin\V1`, but the directory is `app/Http/Controllers/Admin\V1`, one directory with a backslash in its name, so the directory does not mirror the namespace.
- Controllers.ViewIsRouteName: excludes a prefix of `"0"`, which is falsy in PHP. `view` then keeps `0` and `routeName` drops it, so the two differ.
- RoundTrip.NamesRoundTrip: assumes, per prefix part, that `snake(studly(p)) == snake(p)`, that the studly and snake forms are truthy and backslash-free and that the snake form does not start with `.`. It also assumes that `class_basename` gives back the model name and that the folder `plural(snake(M))` is non-empty with no dot at either end.
