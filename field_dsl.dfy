/**
  The field DSL of `GeneratorService::parseFields`: comma-separated clauses
  `name:type:option:option...`, each becoming a `Field` record.
 */
module FieldDsl {
  import opened Php

  /** One parsed field. `fieldType` is the source's `type` key. */
  datatype Field = Field(name: string, fieldType: string, options: seq<string>)

  /** `empty($fieldsString)` holds for null, "" and "0". */
  predicate EmptyInput(s: Option<string>) {
    s.None? || !Truthy(s.value)
  }

  /**
    What one iteration of the loop makes of a comma clause: the clause is
    trimmed and cut at every colon; the name and the type are trimmed again,
    the options are kept verbatim. A clause whose name is falsy gives nothing.
   */
  function ParseClause(part: string): (f: Option<Field>)
    ensures f.Some? ==> Truthy(f.value.name) && ':' !in f.value.name && ':' !in f.value.fieldType
    ensures f.Some? ==> forall i :: 0 <= i < |f.value.options| ==> ':' !in f.value.options[i]
  {
    var segments := Split(Trim(part, Whitespace), ':');
    var name := Trim(segments[0], Whitespace);
    // `trim($segments[1] ?? 'string')`: trimming the default changes nothing
    var fieldType := if |segments| > 1 then Trim(segments[1], Whitespace) else "string";
    var options := if |segments| > 2 then segments[2..] else [];
    SegmentsTrimAvoid(segments);
    if Truthy(name) then Some(Field(name, fieldType, options)) else None
  }

  /** Trimming the first two segments of a colon split brings back no colon. */
  lemma SegmentsTrimAvoid(segments: seq<string>)
    requires |segments| >= 1 && forall i :: 0 <= i < |segments| ==> ':' !in segments[i]
    ensures ':' !in Trim(segments[0], Whitespace)
    ensures |segments| > 1 ==> ':' !in Trim(segments[1], Whitespace)
  {
    TrimAvoids(segments[0], Whitespace, ':');
    if |segments| > 1 {
      TrimAvoids(segments[1], Whitespace, ':');
    }
  }

  /** The fields the loop has collected after the clauses `parts`, in clause order. */
  function FieldsOf(parts: seq<string>): (fs: seq<Field>)
    ensures |fs| <= |parts|
    ensures forall i :: 0 <= i < |fs| ==> Truthy(fs[i].name) && ':' !in fs[i].name
  {
    Somes(Map(parts, ParseClause))
  }

  /** The value of `parseFields($fieldsString)`. */
  function ParsedFields(s: Option<string>): (fields: seq<Field>)
    ensures EmptyInput(s) ==> fields == []
    ensures !EmptyInput(s) ==> |fields| <= |Split(s.value, ',')|
    ensures forall i :: 0 <= i < |fields| ==> Truthy(fields[i].name) && ':' !in fields[i].name
  {
    if EmptyInput(s) then [] else FieldsOf(Split(s.value, ','))
  }

  /** `GeneratorService::parseFields`. */
  method ParseFields(s: Option<string>) returns (fields: seq<Field>)
    ensures EmptyInput(s) ==> fields == []
    ensures !EmptyInput(s) ==> fields == FieldsOf(Split(s.value, ','))
    ensures fields == ParsedFields(s)
  {
    if s.None? || !Truthy(s.value) {
      return [];
    }
    fields := [];
    var parts := Split(s.value, ',');
    for i := 0 to |parts|
      invariant fields == FieldsOf(parts[..i])
    {
      var clause := ParseClause(parts[i]);
      FieldsOfSnoc(parts[..i], parts[i], clause);
      assert parts[..i] + [parts[i]] == parts[..i + 1];
      if clause.Some? {
        fields := fields + [clause.value];
      }
    }
    assert parts[..|parts|] == parts;
  }

  /** One more clause adds its field, if it has one, at the end. */
  lemma FieldsOfSnoc(parts: seq<string>, p: string, clause: Option<Field>)
    requires clause == ParseClause(p)
    ensures FieldsOf(parts + [p]) == FieldsOf(parts) + (if clause.Some? then [clause.value] else [])
  {
    var xs := Map(parts, ParseClause);
    MapConcat(parts, [p], ParseClause);
    assert Map(parts + [p], ParseClause) == xs + [clause];
    assert (xs + [clause])[..|xs|] == xs;
  }

  /** Parsing is clause by clause: the fields of two runs of clauses are the two results in order. */
  lemma FieldsOfConcat(a: seq<string>, b: seq<string>)
    ensures FieldsOf(a + b) == FieldsOf(a) + FieldsOf(b)
  {
    MapConcat(a, b, ParseClause);
    SomesConcat(Map(a, ParseClause), Map(b, ParseClause));
  }

  /** A clause with a falsy name is dropped without a trace. */
  lemma DropsUnnamedClause(a: seq<string>, p: string, b: seq<string>)
    requires ParseClause(p).None?
    ensures FieldsOf(a + [p] + b) == FieldsOf(a + b)
  {
    FieldsOfConcat(a + [p], b);
    FieldsOfSnoc(a, p, ParseClause(p));
    assert FieldsOf(a + [p]) == FieldsOf(a);
    FieldsOfConcat(a, b);
    assert FieldsOf(a + [p] + b) == FieldsOf(a) + FieldsOf(b);
  }

  /**
    When every clause is named there is exactly one field per clause, in
    clause order; equal clauses give equal fields (no de-duplication).
   */
  lemma OneFieldPerNamedClause(parts: seq<string>)
    requires forall i :: 0 <= i < |parts| ==> ParseClause(parts[i]).Some?
    ensures |FieldsOf(parts)| == |parts|
    ensures forall i :: 0 <= i < |parts| ==> FieldsOf(parts)[i] == ParseClause(parts[i]).value
  {
    SomesAllPresent(Map(parts, ParseClause));
  }

  /** A clause without a colon is a bare name: type "string", no options. */
  lemma BareNameClause(part: string)
    requires ':' !in Trim(part, Whitespace) && Truthy(Trim(part, Whitespace))
    ensures ParseClause(part) == Some(Field(Trim(part, Whitespace), "string", []))
  {
    var t := Trim(part, Whitespace);
    SplitWithoutSep(t, ':');
    TrimUntouched(t, Whitespace);
  }

  /** The DSL text of a field: name, type and options joined by colons. */
  function FieldClause(f: Field): string {
    Join([f.name, f.fieldType] + f.options, ":")
  }

  /**
    A field that the DSL can express: a truthy name, no colon or comma in
    any part, name and type without surrounding blanks, and a clause that
    does not end in a blank.
   */
  predicate Expressible(f: Field) {
    && Truthy(f.name)
    && Trim(f.name, Whitespace) == f.name
    && Trim(f.fieldType, Whitespace) == f.fieldType
    && (forall i :: 0 <= i < |[f.name, f.fieldType] + f.options| ==>
          ':' !in ([f.name, f.fieldType] + f.options)[i] && ',' !in ([f.name, f.fieldType] + f.options)[i])
    && FieldClause(f)[|FieldClause(f)| - 1] !in Whitespace
  }

  /** Parsing the DSL text of an expressible field gives the field back. */
  lemma ClauseRoundTrip(f: Field)
    requires Expressible(f)
    ensures ParseClause(FieldClause(f)) == Some(f)
  {
    var pieces := [f.name, f.fieldType] + f.options;
    var c := FieldClause(f);
    assert c == f.name + ":" + Join(pieces[1..], ":");
    assert c[0] == f.name[0];
    TrimUntouched(c, Whitespace);
    SplitJoin(pieces, ':');
    assert pieces[2..] == f.options;
  }

  /** The DSL clauses of a list of fields, one per field. */
  function Clauses(fields: seq<Field>): (cs: seq<string>)
    ensures |cs| == |fields|
  {
    Map(fields, FieldClause)
  }

  /** Each clause of expressible fields is comma-free and parses back to its field. */
  lemma ClausesParseBack(fields: seq<Field>)
    requires forall i :: 0 <= i < |fields| ==> Expressible(fields[i])
    ensures forall i :: 0 <= i < |fields| ==>
      ',' !in Clauses(fields)[i] && ParseClause(Clauses(fields)[i]) == Some(fields[i])
  {
    forall i | 0 <= i < |fields|
      ensures ',' !in Clauses(fields)[i] && ParseClause(Clauses(fields)[i]) == Some(fields[i])
    {
      var f := fields[i];
      JoinAvoids([f.name, f.fieldType] + f.options, ":", ',');
      ClauseRoundTrip(f);
    }
  }

  /** The DSL text of at least one expressible field is not an empty input. */
  lemma DslTextTruthy(fields: seq<Field>)
    requires fields != [] && forall i :: 0 <= i < |fields| ==> Expressible(fields[i])
    ensures Truthy(Join(Clauses(fields), ","))
  {
    var clauses := Clauses(fields);
    var s := Join(clauses, ",");
    var first := fields[0];
    assert FieldClause(first) == first.name + ":" + Join(([first.name, first.fieldType] + first.options)[1..], ":");
    if |fields| == 1 {
      assert s == FieldClause(first);
      assert s[..|first.name|] == first.name;
    } else {
      assert s == clauses[0] + "," + Join(clauses[1..], ",");
      assert s[|clauses[0]|] == ',';
    }
  }

  /** The loop over the clauses of expressible fields collects exactly those fields. */
  lemma ClausesFieldsBack(fields: seq<Field>)
    requires forall i :: 0 <= i < |fields| ==> Expressible(fields[i])
    ensures FieldsOf(Clauses(fields)) == fields
  {
    var clauses := Clauses(fields);
    ClausesParseBack(fields);
    OneFieldPerNamedClause(clauses);
    var parsed := FieldsOf(clauses);
    forall i | 0 <= i < |fields|
      ensures parsed[i] == fields[i]
    {
      assert parsed[i] == ParseClause(clauses[i]).value;
    }
  }

  /**
    Writing expressible fields in the DSL, comma-separated, and parsing the
    text gives back the same fields in the same order, duplicates included.
   */
  lemma DslRoundTrip(fields: seq<Field>)
    requires forall i :: 0 <= i < |fields| ==> Expressible(fields[i])
    ensures ParsedFields(Some(Join(Clauses(fields), ","))) == fields
  {
    var clauses := Clauses(fields);
    if fields != [] {
      var text := Join(clauses, ",");
      ClausesParseBack(fields);
      DslTextTruthy(fields);
      assert ParsedFields(Some(text)) == FieldsOf(Split(text, ','));
      SplitJoin(clauses, ',');
      assert Split(text, ',') == clauses;
      ClausesFieldsBack(fields);
    }
  }
}
