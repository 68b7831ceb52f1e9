/**
  The fragment builders of `GeneratorService`: each turns the parsed field
  list into one piece of code or markup that the stubs splice in. Every
  builder emits one item per field, in field order, joined by a fixed
  separator; the search predicate keeps only the text-like fields.
 */
module FieldCompiler {
  import opened Php
  import opened Laravel
  import opened FieldDsl

  /** The separators `implode` puts between items. */
  const Indent8: string := "\n        "
  const Indent12: string := "\n            "
  const Indent16: string := "\n                "
  const Indent20: string := "\n                    "

  /** What the view builders read besides the fields: the string helpers and `$modelVariable`. */
  datatype ViewContext = ViewContext(str: Str, modelVariable: string)

  // ---------------------------------------------------------------------------
  // Migration schema
  // ---------------------------------------------------------------------------

  /** The column call of a field before any modifier: `$table->TYPE('NAME')`. */
  function ColumnCall(f: Field): string {
    "$table->" + f.fieldType + "('" + f.name + "')"
  }

  /** The modifiers the options ask for: `->nullable()` first, then `->unique()`. */
  function ColumnModifiers(options: seq<string>): string {
    (if "nullable" in options then "->nullable()" else "")
    + (if "unique" in options then "->unique()" else "")
  }

  /** One schema line: the column call, its modifiers and a closing semicolon. */
  function SchemaLine(f: Field): string {
    ColumnCall(f) + ColumnModifiers(f.options) + ";"
  }

  /** The value of `generateMigrationSchema($fields)`. */
  function Schema(fields: seq<Field>): string {
    Join(Map(fields, SchemaLine), Indent12)
  }

  /** `GeneratorService::generateMigrationSchema`. */
  method GenerateMigrationSchema(fields: seq<Field>) returns (r: string)
    ensures r == Schema(fields)
  {
    var schema: seq<string> := [];
    for i := 0 to |fields|
      invariant schema == Map(fields[..i], SchemaLine)
    {
      var field := fields[i];
      var line := "$table->" + field.fieldType + "('" + field.name + "')";
      assert line == ColumnCall(field);
      if "nullable" in field.options {
        line := line + "->nullable()";
      }
      assert line == ColumnCall(field) + (if "nullable" in field.options then "->nullable()" else "");
      if "unique" in field.options {
        line := line + "->unique()";
      }
      assert line == ColumnCall(field) + ColumnModifiers(field.options);
      // a `default` option is recognised and then ignored
      line := line + ";";
      MapPrefixStep(fields, i, SchemaLine);
      schema := schema + [line];
    }
    assert fields[..|fields|] == fields;
    r := Join(schema, Indent12);
  }

  /**
    The schema is built field by field: no fields give "", one field gives
    its line, and two non-empty runs give their schemas one indent apart.
   */
  lemma SchemaConcat(a: seq<Field>, b: seq<Field>)
    ensures Schema([]) == ""
    ensures |a| == 1 ==> Schema(a) == SchemaLine(a[0])
    ensures a != [] && b != [] ==> Schema(a + b) == Schema(a) + Indent12 + Schema(b)
  {
    MapConcat(a, b, SchemaLine);
    if a != [] && b != [] {
      JoinConcat(Map(a, SchemaLine), Map(b, SchemaLine), Indent12);
    }
  }

  /**
    A schema line is the column call, then exactly the modifiers its options
    select, nullable before unique, then ";"; no other option text shows.
   */
  lemma SchemaLineShape(f: Field)
    ensures StartsWith(SchemaLine(f), ColumnCall(f))
    ensures SchemaLine(f)[|SchemaLine(f)| - 1] == ';'
    ensures "nullable" in f.options && "unique" in f.options ==>
      SchemaLine(f) == ColumnCall(f) + "->nullable()->unique();"
    ensures "nullable" in f.options && "unique" !in f.options ==>
      SchemaLine(f) == ColumnCall(f) + "->nullable();"
    ensures "nullable" !in f.options && "unique" in f.options ==>
      SchemaLine(f) == ColumnCall(f) + "->unique();"
    ensures "nullable" !in f.options && "unique" !in f.options ==>
      SchemaLine(f) == ColumnCall(f) + ";"
  {
    assert SchemaLine(f)[..|ColumnCall(f)|] == ColumnCall(f);
  }

  /**
    Only the presence of `nullable` and `unique` matters: the order of the
    options, repetitions and other options, `default` among them, do not.
   */
  lemma SchemaLineReadsTwoOptions(f: Field, g: Field)
    requires f.name == g.name && f.fieldType == g.fieldType
    requires ("nullable" in f.options <==> "nullable" in g.options)
    requires ("unique" in f.options <==> "unique" in g.options)
    ensures SchemaLine(f) == SchemaLine(g)
  {
  }

  /** Adding a `default` option to a field changes nothing in its schema line. */
  lemma DefaultIgnored(f: Field)
    ensures SchemaLine(Field(f.name, f.fieldType, f.options + ["default"])) == SchemaLine(f)
  {
    var g := Field(f.name, f.fieldType, f.options + ["default"]);
    assert "nullable" in g.options <==> "nullable" in f.options;
    assert "unique" in g.options <==> "unique" in f.options;
    SchemaLineReadsTwoOptions(g, f);
  }

  // ---------------------------------------------------------------------------
  // Fillable list
  // ---------------------------------------------------------------------------

  /** One fillable entry: the quoted field name. */
  function FillableItem(f: Field): string {
    "'" + f.name + "'"
  }

  /** `GeneratorService::generateFillable`: the quoted names, comma-separated. */
  function GenerateFillable(fields: seq<Field>): (r: string)
    ensures r == "" <==> fields == []
    ensures |fields| == 1 ==> r == "'" + fields[0].name + "'"
  {
    JoinEmptyIff(Map(fields, FillableItem), "," + Indent8);
    Join(Map(fields, FillableItem), "," + Indent8)
  }

  /** The fillable list is built name by name, in field order. */
  lemma FillableConcat(a: seq<Field>, b: seq<Field>)
    requires a != [] && b != []
    ensures GenerateFillable(a + b) == GenerateFillable(a) + "," + Indent8 + GenerateFillable(b)
  {
    MapConcat(a, b, FillableItem);
    JoinConcat(Map(a, FillableItem), Map(b, FillableItem), "," + Indent8);
  }

  // ---------------------------------------------------------------------------
  // Validation rules
  // ---------------------------------------------------------------------------

  /** The rules a field's type adds after the presence rule. */
  function TypeRules(fieldType: string): seq<string> {
    if fieldType == "string" then ["string", "max:255"]
    else if fieldType == "integer" then ["integer"]
    else if fieldType == "boolean" then ["boolean"]
    else if fieldType == "email" then ["email"]
    else if fieldType == "date" || fieldType == "datetime" then ["date"]
    else []
  }

  /** A field's rule chain: `nullable` if that option is given, else `required`, then the type rules. */
  function RuleChain(f: Field): seq<string> {
    (if "nullable" in f.options then ["nullable"] else ["required"]) + TypeRules(f.fieldType)
  }

  /** One rules line: `'NAME' => 'r1|r2',`. */
  function RuleLine(f: Field): string {
    "'" + f.name + "' => '" + Join(RuleChain(f), "|") + "',"
  }

  /** The value of `generateValidationRules($fields, $isUpdate)` for either flag. */
  function Rules(fields: seq<Field>): string {
    Join(Map(fields, RuleLine), Indent12)
  }

  /** `GeneratorService::generateValidationRules`: the update flag is accepted and has no effect. */
  method GenerateValidationRules(fields: seq<Field>, isUpdate: bool) returns (r: string)
    ensures r == Rules(fields)
  {
    var rules: seq<string> := [];
    for i := 0 to |fields|
      invariant rules == Map(fields[..i], RuleLine)
    {
      var field := fields[i];
      var fieldRules := ["required"];
      if "nullable" in field.options {
        fieldRules := ["nullable"];
      }
      if field.fieldType == "string" {
        fieldRules := fieldRules + ["string", "max:255"];
      } else if field.fieldType == "integer" {
        fieldRules := fieldRules + ["integer"];
      } else if field.fieldType == "boolean" {
        fieldRules := fieldRules + ["boolean"];
      } else if field.fieldType == "email" {
        fieldRules := fieldRules + ["email"];
      } else if field.fieldType == "date" || field.fieldType == "datetime" {
        fieldRules := fieldRules + ["date"];
      }
      // a `unique` option is recognised and then ignored
      assert fieldRules == RuleChain(field);
      var ruleString := Join(fieldRules, "|");
      MapPrefixStep(fields, i, RuleLine);
      rules := rules + ["'" + field.name + "' => '" + ruleString + "',"];
    }
    assert fields[..|fields|] == fields;
    r := Join(rules, Indent12);
  }

  /** The rules are built field by field, one line each, in field order. */
  lemma RulesConcat(a: seq<Field>, b: seq<Field>)
    ensures Rules([]) == ""
    ensures |a| == 1 ==> Rules(a) == RuleLine(a[0])
    ensures a != [] && b != [] ==> Rules(a + b) == Rules(a) + Indent12 + Rules(b)
  {
    MapConcat(a, b, RuleLine);
    if a != [] && b != [] {
      JoinConcat(Map(a, RuleLine), Map(b, RuleLine), Indent12);
    }
  }

  /**
    The chain opens with exactly one presence rule: `required` exactly when
    the field is not nullable, `nullable` exactly when it is; `unique` never
    appears, whatever the options.
   */
  lemma RuleChainPresence(f: Field)
    ensures |RuleChain(f)| >= 1
    ensures RuleChain(f)[0] == (if "nullable" in f.options then "nullable" else "required")
    ensures "required" in RuleChain(f) <==> "nullable" !in f.options
    ensures "nullable" in RuleChain(f) <==> "nullable" in f.options
    ensures "unique" !in RuleChain(f)
  {
    var t := TypeRules(f.fieldType);
    assert "required" !in t && "nullable" !in t && "unique" !in t;
    assert RuleChain(f)[1..] == t;
  }

  /** The type part of the chain is empty exactly for the types without a rule. */
  lemma TypeRulesKnown(fieldType: string)
    ensures TypeRules(fieldType) == [] <==>
      fieldType !in {"string", "integer", "boolean", "email", "date", "datetime"}
    ensures |TypeRules(fieldType)| <= 2
  {
  }

  // ---------------------------------------------------------------------------
  // Labels and view fragments
  // ---------------------------------------------------------------------------

  /** `Str::title(str_replace('_', ' ', $name))`. */
  function Label(str: Str, name: string): string {
    str.title(ReplaceAll(name, "_", " "))
  }

  /** What `Str::title` receives: the name with every underscore turned into a blank. */
  lemma LabelSource(name: string)
    ensures ReplaceAll(name, "_", " ") == MapChar(name, '_', ' ')
    ensures |ReplaceAll(name, "_", " ")| == |name| && '_' !in ReplaceAll(name, "_", " ")
  {
    ReplaceCharIsMap(name, '_', ' ');
  }

  /** The classes of the text-like inputs. */
  const InputClass: string :=
    "mt-1 block w-full rounded-md border-gray-300 shadow-sm focus:border-indigo-300 focus:ring focus:ring-indigo-200 focus:ring-opacity-50"

  /** The classes of the checkbox. */
  const CheckboxClass: string :=
    "rounded border-gray-300 text-indigo-600 shadow-sm focus:border-indigo-300 focus:ring focus:ring-indigo-200 focus:ring-opacity-50"

  /** The Blade expression that refills an input: `old('NAME', $VAR->NAME ?? '')`. */
  function OldValue(name: string, modelVariable: string): string {
    "old('" + name + "', $" + modelVariable + "->" + name + " ?? '')"
  }

  /** The `type` attribute of a plain input: email and password keep theirs, the rest are text. */
  function PlainInputType(fieldType: string): string {
    if fieldType == "email" then "email" else if fieldType == "password" then "password" else "text"
  }

  /** Opening of every `<input>` fragment up to its `type` attribute value. */
  function InputOpening(inputType: string): string {
    "<input type=\"" + inputType + "\" "
  }

  const TextareaOpening: string := "<textarea "
  const CheckboxOpening: string := "<div class=\"flex items-center\">"

  /** How the control of a field of this type opens: the only part of it that depends on the type. */
  function ControlOpening(fieldType: string): string {
    if fieldType == "text" || fieldType == "longtext" then TextareaOpening
    else if fieldType == "boolean" then CheckboxOpening
    else if fieldType == "date" || fieldType == "datetime" then InputOpening("date")
    else InputOpening(PlainInputType(fieldType))
  }

  /** The rest of the control of one field, after its opening. */
  function ControlRest(c: ViewContext, f: Field): string {
    var name := f.name;
    var oldValue := OldValue(name, c.modelVariable);
    if f.fieldType == "text" || f.fieldType == "longtext" then
      "name=\"" + name + "\" id=\"" + name + "\" class=\"" + InputClass
      + "\" rows=\"3\">{{ " + oldValue + " }}</textarea>"
    else if f.fieldType == "boolean" then
      // the checked expression is emitted as raw text, outside any Blade echo
      var checked := "old('" + name + "', $" + c.modelVariable + "->" + name + " ?? false) ? 'checked' : ''";
      Indent20 + "<input type=\"checkbox\" name=\"" + name + "\" id=\"" + name
      + "\" value=\"1\" " + checked + " class=\"" + CheckboxClass + "\">"
      + Indent20 + "<span class=\"ml-2 text-sm text-gray-600\">Yes</span>"
      + Indent16 + "</div>"
    else
      "name=\"" + name + "\" id=\"" + name + "\" value=\"{{ " + oldValue
      + " }}\" class=\"" + InputClass + "\">"
  }

  /** The input control of one field, by type. */
  function InputFragment(c: ViewContext, f: Field): string {
    ControlOpening(f.fieldType) + ControlRest(c, f)
  }

  /** The label tag of a form block up to the label text. */
  function LabelOpening(name: string): string {
    "<div class=\"mb-4\">\n    <label for=\"" + name + "\" class=\"block text-sm font-medium text-gray-700\">"
  }

  /** The validation message slot of a form block. */
  function ErrorDirective(name: string): string {
    "@error('" + name + "')"
  }

  const FormBlockTail: string :=
    "\n        <p class=\"text-red-500 text-xs mt-1\">{{ $message }}</p>\n    @enderror\n</div>"

  /** One form block: label, input control and the error message slot. */
  function FormBlock(c: ViewContext, f: Field): string {
    LabelOpening(f.name) + Label(c.str, f.name) + "</label>\n    " + InputFragment(c, f) + "\n    "
    + ErrorDirective(f.name) + FormBlockTail
  }

  /** The value of `generateFormFields($fields, $modelVariable)`. */
  function FormFields(c: ViewContext, fields: seq<Field>): string {
    Join(MapWith(c, fields, FormBlock), "\n")
  }

  /** `GeneratorService::generateFormFields`. */
  method GenerateFormFields(str: Str, fields: seq<Field>, modelVariable: string) returns (r: string)
    ensures r == FormFields(ViewContext(str, modelVariable), fields)
  {
    var c := ViewContext(str, modelVariable);
    var html: seq<string> := [];
    for i := 0 to |fields|
      invariant html == MapWith(c, fields[..i], FormBlock)
    {
      var name := fields[i].name;
      var caption := Label(str, name);
      var input := InputFragment(c, fields[i]);
      MapWithPrefixStep(c, fields, i, FormBlock);
      html := html + [LabelOpening(name) + caption + "</label>\n    " + input + "\n    "
        + ErrorDirective(name) + FormBlockTail];
    }
    assert fields[..|fields|] == fields;
    r := Join(html, "\n");
  }

  /** The form is built field by field, one block each, in field order. */
  lemma FormFieldsConcat(c: ViewContext, a: seq<Field>, b: seq<Field>)
    ensures FormFields(c, []) == ""
    ensures |a| == 1 ==> FormFields(c, a) == FormBlock(c, a[0])
    ensures a != [] && b != [] ==> FormFields(c, a + b) == FormFields(c, a) + "\n" + FormFields(c, b)
  {
    MapWithConcat(c, a, b, FormBlock);
    if a != [] && b != [] {
      JoinConcat(MapWith(c, a, FormBlock), MapWith(c, b, FormBlock), "\n");
    }
  }

  /**
    The control a field gets is decided by its type alone: a textarea
    exactly for text and longtext, a checkbox exactly for boolean, a date
    input exactly for date and datetime, and otherwise an input typed
    email, password or text.
   */
  lemma InputByType(c: ViewContext, f: Field)
    ensures StartsWith(InputFragment(c, f), TextareaOpening) <==>
      (f.fieldType == "text" || f.fieldType == "longtext")
    ensures StartsWith(InputFragment(c, f), CheckboxOpening) <==> f.fieldType == "boolean"
    ensures StartsWith(InputFragment(c, f), InputOpening("date")) <==>
      (f.fieldType == "date" || f.fieldType == "datetime")
    ensures StartsWith(InputFragment(c, f), InputOpening("email")) <==> f.fieldType == "email"
    ensures StartsWith(InputFragment(c, f), InputOpening("password")) <==> f.fieldType == "password"
    ensures StartsWith(InputFragment(c, f), InputOpening("text")) <==>
      f.fieldType !in {"text", "longtext", "boolean", "date", "datetime", "email", "password"}
  {
    var o := ControlOpening(f.fieldType);
    StartsWithConcat(o, ControlRest(c, f));
    ControlOpeningByType(f.fieldType);
    OpeningsExclusive(InputFragment(c, f), o);
  }

  /** Which opening each type gets, and that it is one of the six. */
  lemma ControlOpeningByType(t: string)
    ensures IsOpening(ControlOpening(t))
    ensures ControlOpening(t) == TextareaOpening <==> (t == "text" || t == "longtext")
    ensures ControlOpening(t) == CheckboxOpening <==> t == "boolean"
    ensures ControlOpening(t) == InputOpening("date") <==> (t == "date" || t == "datetime")
    ensures ControlOpening(t) == InputOpening("email") <==> t == "email"
    ensures ControlOpening(t) == InputOpening("password") <==> t == "password"
    ensures ControlOpening(t) == InputOpening("text") <==>
      t !in {"text", "longtext", "boolean", "date", "datetime", "email", "password"}
  {
    OpeningsDistinct();
  }

  /** The six openings are pairwise different. */
  lemma OpeningsDistinct()
    ensures TextareaOpening != CheckboxOpening
    ensures forall x :: x in {"date", "email", "password", "text"} ==>
      InputOpening(x) != TextareaOpening && InputOpening(x) != CheckboxOpening
    ensures forall x, y :: x in {"date", "email", "password", "text"} && y in {"date", "email", "password", "text"} && x != y ==>
      InputOpening(x) != InputOpening(y)
  {
    assert TextareaOpening[1] == 't' && CheckboxOpening[1] == 'd';
    forall x | x in {"date", "email", "password", "text"}
      ensures InputOpening(x) != TextareaOpening && InputOpening(x) != CheckboxOpening
      ensures InputOpening(x)[1] == 'i' && InputOpening(x)[13] == x[0]
    {
    }
  }

  /** The openings of the six kinds of control, as `ControlOpening` yields them. */
  predicate IsOpening(o: string) {
    o == TextareaOpening || o == CheckboxOpening || o == InputOpening("date")
    || o == InputOpening("email") || o == InputOpening("password") || o == InputOpening("text")
  }

  /** A text that starts with one control opening starts with no other. */
  lemma OpeningsExclusive(s: string, o: string)
    requires IsOpening(o) && StartsWith(s, o)
    ensures StartsWith(s, TextareaOpening) <==> o == TextareaOpening
    ensures StartsWith(s, CheckboxOpening) <==> o == CheckboxOpening
    ensures StartsWith(s, InputOpening("date")) <==> o == InputOpening("date")
    ensures StartsWith(s, InputOpening("email")) <==> o == InputOpening("email")
    ensures StartsWith(s, InputOpening("password")) <==> o == InputOpening("password")
    ensures StartsWith(s, InputOpening("text")) <==> o == InputOpening("text")
  {
    OpeningChars(s, TextareaOpening);
    OpeningChars(s, CheckboxOpening);
    InputTypeChar(s, "date");
    InputTypeChar(s, "email");
    InputTypeChar(s, "password");
    InputTypeChar(s, "text");
  }

  /** Starting with `p` fixes the second character. */
  lemma OpeningChars(s: string, p: string)
    requires |p| >= 2
    ensures StartsWith(s, p) ==> s[1] == p[1]
  {
    if StartsWith(s, p) {
      assert s[..|p|][1] == s[1];
    }
  }

  /** Starting with an `<input>` opening fixes the second character and the first letter of the type. */
  lemma InputTypeChar(s: string, inputType: string)
    requires inputType != []
    ensures StartsWith(s, InputOpening(inputType)) ==> s[1] == 'i' && s[13] == inputType[0]
  {
    var p := InputOpening(inputType);
    if StartsWith(s, p) {
      assert p[1] == 'i' && p[13] == inputType[0];
      assert s[..|p|][1] == s[1] && s[..|p|][13] == s[13];
    }
  }

  /** Every form block holds the field's label and its `@error('NAME')` directive. */
  lemma FormBlockMentions(c: ViewContext, f: Field)
    ensures StrContains(FormBlock(c, f), Label(c.str, f.name))
    ensures StrContains(FormBlock(c, f), ErrorDirective(f.name))
  {
    var l := Label(c.str, f.name);
    var a := LabelOpening(f.name) + l;
    var b := a + "</label>\n    " + InputFragment(c, f) + "\n    ";
    ContainsEnd(LabelOpening(f.name), l);
    ContainsLeft(a, "</label>\n    ", l);
    ContainsLeft(a + "</label>\n    ", InputFragment(c, f), l);
    ContainsLeft(a + "</label>\n    " + InputFragment(c, f), "\n    ", l);
    ContainsLeft(b, ErrorDirective(f.name), l);
    ContainsLeft(b + ErrorDirective(f.name), FormBlockTail, l);
    ContainsEnd(b, ErrorDirective(f.name));
    ContainsLeft(b + ErrorDirective(f.name), FormBlockTail, ErrorDirective(f.name));
  }

  /** One table header cell: the label in a `<th>`. */
  function HeaderCell(str: Str, f: Field): string {
    "<th class=\"py-3 px-6 text-left\">" + Label(str, f.name) + "</th>"
  }

  /** The value of `generateTableHeaders($fields)`. */
  function TableHeaders(str: Str, fields: seq<Field>): string {
    Join(MapWith(str, fields, HeaderCell), Indent20)
  }

  /** `GeneratorService::generateTableHeaders`. */
  method GenerateTableHeaders(str: Str, fields: seq<Field>) returns (r: string)
    ensures r == TableHeaders(str, fields)
  {
    var headers: seq<string> := [];
    for i := 0 to |fields|
      invariant headers == MapWith(str, fields[..i], HeaderCell)
    {
      var caption := Label(str, fields[i].name);
      MapWithPrefixStep(str, fields, i, HeaderCell);
      headers := headers + ["<th class=\"py-3 px-6 text-left\">" + caption + "</th>"];
    }
    assert fields[..|fields|] == fields;
    r := Join(headers, Indent20);
  }

  /** One table body cell: the model attribute in a `<td>`. */
  function BodyCell(modelVariable: string, f: Field): string {
    "<td class=\"py-3 px-6 text-left whitespace-nowrap\">{{ $" + modelVariable + "->" + f.name + " }}</td>"
  }

  /** The value of `generateTableBody($fields, $modelVariable)`. */
  function TableBody(modelVariable: string, fields: seq<Field>): string {
    Join(MapWith(modelVariable, fields, BodyCell), Indent20)
  }

  /** `GeneratorService::generateTableBody`. */
  method GenerateTableBody(fields: seq<Field>, modelVariable: string) returns (r: string)
    ensures r == TableBody(modelVariable, fields)
  {
    var cells: seq<string> := [];
    for i := 0 to |fields|
      invariant cells == MapWith(modelVariable, fields[..i], BodyCell)
    {
      var name := fields[i].name;
      MapWithPrefixStep(modelVariable, fields, i, BodyCell);
      cells := cells + ["<td class=\"py-3 px-6 text-left whitespace-nowrap\">{{ $" + modelVariable + "->" + name + " }}</td>"];
    }
    assert fields[..|fields|] == fields;
    r := Join(cells, Indent20);
  }

  /** One detail entry: the label as `<dt>`, the attribute as `<dd>`. */
  function ShowField(c: ViewContext, f: Field): string {
    "<div class=\"col-span-1\">" + Indent20 + "<dt class=\"text-sm font-medium text-gray-500\">"
    + Label(c.str, f.name) + "</dt>" + Indent20 + "<dd class=\"mt-1 text-sm text-gray-900\">{{ $"
    + c.modelVariable + "->" + f.name + " }}</dd>" + Indent16 + "</div>"
  }

  /** The value of `generateShowFields($fields, $modelVariable)`. */
  function ShowFields(c: ViewContext, fields: seq<Field>): string {
    Join(MapWith(c, fields, ShowField), Indent16)
  }

  /** `GeneratorService::generateShowFields`. */
  method GenerateShowFields(str: Str, fields: seq<Field>, modelVariable: string) returns (r: string)
    ensures r == ShowFields(ViewContext(str, modelVariable), fields)
  {
    var c := ViewContext(str, modelVariable);
    var html: seq<string> := [];
    for i := 0 to |fields|
      invariant html == MapWith(c, fields[..i], ShowField)
    {
      var name := fields[i].name;
      var caption := Label(str, name);
      MapWithPrefixStep(c, fields, i, ShowField);
      html := html + ["<div class=\"col-span-1\">" + Indent20 + "<dt class=\"text-sm font-medium text-gray-500\">"
        + caption + "</dt>" + Indent20 + "<dd class=\"mt-1 text-sm text-gray-900\">{{ $"
        + modelVariable + "->" + name + " }}</dd>" + Indent16 + "</div>"];
    }
    assert fields[..|fields|] == fields;
    r := Join(html, Indent16);
  }

  /**
    Headers, body cells and detail entries are each built field by field:
    nothing for no fields, one item per field, in field order.
   */
  lemma ViewListsConcat(c: ViewContext, a: seq<Field>, b: seq<Field>)
    ensures TableHeaders(c.str, []) == "" && TableBody(c.modelVariable, []) == "" && ShowFields(c, []) == ""
    ensures |a| == 1 ==>
      && TableHeaders(c.str, a) == HeaderCell(c.str, a[0])
      && TableBody(c.modelVariable, a) == BodyCell(c.modelVariable, a[0])
      && ShowFields(c, a) == ShowField(c, a[0])
    ensures a != [] && b != [] ==>
      && TableHeaders(c.str, a + b) == TableHeaders(c.str, a) + Indent20 + TableHeaders(c.str, b)
      && TableBody(c.modelVariable, a + b) == TableBody(c.modelVariable, a) + Indent20 + TableBody(c.modelVariable, b)
      && ShowFields(c, a + b) == ShowFields(c, a) + Indent16 + ShowFields(c, b)
  {
    MapWithConcat(c.str, a, b, HeaderCell);
    MapWithConcat(c.modelVariable, a, b, BodyCell);
    MapWithConcat(c, a, b, ShowField);
    if a != [] && b != [] {
      JoinConcat(MapWith(c.str, a, HeaderCell), MapWith(c.str, b, HeaderCell), Indent20);
      JoinConcat(MapWith(c.modelVariable, a, BodyCell), MapWith(c.modelVariable, b, BodyCell), Indent20);
      JoinConcat(MapWith(c, a, ShowField), MapWith(c, b, ShowField), Indent16);
    }
  }

  // ---------------------------------------------------------------------------
  // Search
  // ---------------------------------------------------------------------------

  /** The fields the search box looks in: those typed string, text or email. */
  predicate Searchable(f: Field) {
    f.fieldType == "string" || f.fieldType == "text" || f.fieldType == "email"
  }

  /** `array_filter` of the searchable fields, order kept. */
  function SearchableFields(fields: seq<Field>): (r: seq<Field>)
    ensures |r| <= |fields|
    ensures forall i :: 0 <= i < |r| ==> Searchable(r[i])
  {
    if fields == [] then []
    else
      var last := fields[|fields| - 1];
      SearchableFields(fields[..|fields| - 1]) + (if Searchable(last) then [last] else [])
  }

  /** The filter is taken field by field and keeps the order. */
  lemma {:induction false} SearchableFieldsConcat(a: seq<Field>, b: seq<Field>)
    ensures SearchableFields(a + b) == SearchableFields(a) + SearchableFields(b)
    decreases |b|
  {
    if b == [] {
      assert a + b == a;
    } else {
      var b' := b[..|b| - 1];
      var x := b[|b| - 1];
      var keep := if Searchable(x) then [x] else [];
      assert (a + b)[..|a + b| - 1] == a + b';
      assert (a + b)[|a + b| - 1] == x;
      SearchableFieldsConcat(a, b');
      assert SearchableFields(a + b) == SearchableFields(a + b') + keep;
      assert SearchableFields(b) == SearchableFields(b') + keep;
    }
  }

  /** Nothing is left exactly when no field is searchable. */
  lemma {:induction false} SearchableFieldsEmptyIff(fields: seq<Field>)
    ensures SearchableFields(fields) == [] <==> forall i :: 0 <= i < |fields| ==> !Searchable(fields[i])
  {
    if fields != [] {
      var init := fields[..|fields| - 1];
      SearchableFieldsEmptyIff(init);
      assert forall i :: 0 <= i < |init| ==> init[i] == fields[i];
    }
  }

  /** The opening of the search predicate. */
  const SearchHeader: string :=
    "if ($search = $request->get('search')) {\n            $query->where(function($q) use ($search) {"

  /** The closing of the search predicate. */
  const SearchFooter: string := ";\n            });\n        }"

  /** The clause of the first searchable field. */
  function WhereClause(name: string): string {
    Indent16 + "$q->where('" + name + "', 'like', \"%$search%\")"
  }

  /** The clause of every later searchable field. */
  function OrWhereClause(name: string): string {
    Indent16 + "  ->orWhere('" + name + "', 'like', \"%$search%\")"
  }

  /** The clause of the `i`-th searchable field. */
  function SearchClause(i: nat, f: Field): string {
    if i == 0 then WhereClause(f.name) else OrWhereClause(f.name)
  }

  /** The clauses of the searchable fields `fs`, in order. */
  function SearchClauses(fs: seq<Field>): (r: seq<string>)
    ensures |r| == |fs|
  {
    seq(|fs|, i requires 0 <= i < |fs| => SearchClause(i, fs[i]))
  }

  /** The value of `generateSearchLogic($fields)`. */
  function SearchLogic(fields: seq<Field>): string {
    var searchable := SearchableFields(fields);
    if searchable == [] then "" else SearchHeader + Concat(SearchClauses(searchable)) + SearchFooter
  }

  /** `GeneratorService::generateSearchLogic`: the clauses are appended under a first-clause flag. */
  method GenerateSearchLogic(fields: seq<Field>) returns (code: string)
    ensures code == SearchLogic(fields)
  {
    var searchable := SearchableFields(fields);
    if searchable == [] {
      return "";
    }
    code := SearchHeader;
    var first := true;
    for i := 0 to |searchable|
      invariant first <==> i == 0
      invariant code == SearchHeader + Concat(SearchClauses(searchable[..i]))
    {
      var name := searchable[i].name;
      ghost var done := Concat(SearchClauses(searchable[..i]));
      if first {
        code := code + WhereClause(name);
        first := false;
      } else {
        code := code + OrWhereClause(name);
      }
      assert code == (SearchHeader + done) + SearchClause(i, searchable[i]);
      SearchClausesStep(searchable, i);
      AppendAssoc(SearchHeader, done, SearchClause(i, searchable[i]));
    }
    assert searchable[..|searchable|] == searchable;
    code := code + SearchFooter;
  }

  /** One more searchable field adds its clause at the end of the text. */
  lemma SearchClausesStep(fs: seq<Field>, i: nat)
    requires i < |fs|
    ensures Concat(SearchClauses(fs[..i + 1])) == Concat(SearchClauses(fs[..i])) + SearchClause(i, fs[i])
  {
    assert SearchClauses(fs[..i + 1]) == SearchClauses(fs[..i]) + [SearchClause(i, fs[i])];
    ConcatSnoc(SearchClauses(fs[..i]), SearchClause(i, fs[i]));
  }

  /** The predicate is "" exactly when no field has type string, text or email. */
  lemma SearchLogicEmptyIff(fields: seq<Field>)
    ensures SearchLogic(fields) == "" <==> forall i :: 0 <= i < |fields| ==> !Searchable(fields[i])
  {
    SearchableFieldsEmptyIff(fields);
  }

  /**
    A non-empty predicate has one clause per searchable field, in field
    order: `where` for the first, `orWhere` for each of the other n-1.
   */
  lemma SearchClausesShape(fields: seq<Field>)
    requires SearchableFields(fields) != []
    ensures var s := SearchableFields(fields);
      && SearchLogic(fields) == SearchHeader + Concat(SearchClauses(s)) + SearchFooter
      && |SearchClauses(s)| == |s|
      && SearchClauses(s)[0] == WhereClause(s[0].name)
      && forall i :: 1 <= i < |s| ==> SearchClauses(s)[i] == OrWhereClause(s[i].name)
  {
  }

  /** The search form: a GET form to the resource's index route. */
  const SearchFormOpening: string := "    <div class=\"mb-4\">\n        <form action=\""

  const SearchFormRest: string :=
    "\" method=\"GET\" class=\"flex gap-2\">\n            <input type=\"text\" name=\"search\" value=\"{{ request('search') }}\" placeholder=\"Search...\" class=\"rounded-md border-gray-300 shadow-sm focus:border-indigo-300 focus:ring focus:ring-indigo-200 focus:ring-opacity-50\">\n            <button type=\"submit\" class=\"bg-gray-500 hover:bg-gray-700 text-white font-bold py-2 px-4 rounded\">Search</button>\n        </form>\n    </div>"

  /** The Blade call that links to the index route of `routeBase`. */
  function IndexRouteCall(routeBase: string): string {
    "{{ route('" + routeBase + ".index') }}"
  }

  /** `GeneratorService::generateSearchInput`: the form submits to `route('ROUTEBASE.index')`. */
  function GenerateSearchInput(routeBase: string): (r: string)
    ensures StrContains(r, IndexRouteCall(routeBase))
    ensures StartsWith(r, SearchFormOpening)
  {
    ContainsInfix(SearchFormOpening, IndexRouteCall(routeBase), SearchFormRest);
    StartsWithConcat(SearchFormOpening, IndexRouteCall(routeBase));
    StartsWithExtend(SearchFormOpening + IndexRouteCall(routeBase), SearchFormOpening, SearchFormRest);
    SearchFormOpening + IndexRouteCall(routeBase) + SearchFormRest
  }
}
