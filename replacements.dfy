/**
  The replacement map of `CrudGenerateCommand::handle`: an ordered list of
  placeholder bindings (a PHP array keeps its insertion order), updated in
  place by key, and applied to a stub the way `str_replace` with two arrays
  does it — one placeholder after the other, each on the result of the
  previous one.
 */
module Replacements {
  import opened Php

  /** The placeholders the command binds, in the order it first binds them. */
  datatype Key =
    | Namespace | Class | Table | Fillable | Schema
    | SoftDeletesImport | SoftDeletesTrait | SoftDeletes | Relationships
    | ControllerNamespace | ModelNamespace | StoreRequestNamespace | UpdateRequestNamespace
    | StoreRequest | UpdateRequest | Model | ModelVariable | ModelVariablePlural
    | ViewPath | RouteBase | SearchLogic | Rules
    | FormFields | TableHeaders | TableBody | ShowFields | SearchInput

  /** The word between the braces of a placeholder. */
  function KeyName(k: Key): string {
    match k
    case Namespace => "namespace"
    case Class => "class"
    case Table => "table"
    case Fillable => "fillable"
    case Schema => "schema"
    case SoftDeletesImport => "softDeletesImport"
    case SoftDeletesTrait => "softDeletesTrait"
    case SoftDeletes => "softDeletes"
    case Relationships => "relationships"
    case ControllerNamespace => "controllerNamespace"
    case ModelNamespace => "modelNamespace"
    case StoreRequestNamespace => "storeRequestNamespace"
    case UpdateRequestNamespace => "updateRequestNamespace"
    case StoreRequest => "storeRequest"
    case UpdateRequest => "updateRequest"
    case Model => "model"
    case ModelVariable => "modelVariable"
    case ModelVariablePlural => "modelVariablePlural"
    case ViewPath => "viewPath"
    case RouteBase => "routeBase"
    case SearchLogic => "searchLogic"
    case Rules => "rules"
    case FormFields => "formFields"
    case TableHeaders => "tableHeaders"
    case TableBody => "tableBody"
    case ShowFields => "showFields"
    case SearchInput => "searchInput"
  }

  /** The text `{{name}}` a stub carries for a key. */
  function Placeholder(k: Key): (p: string)
    ensures StartsWith(p, "{{") && |p| > 4
  {
    StartsWithConcat("{{", KeyName(k) + "}}");
    "{{" + KeyName(k) + "}}"
  }

  /** An ordered replacement map: pairs of key and value, in insertion order. */
  type Bindings = seq<(Key, string)>

  /** The keys of an ordered map, in order. */
  function Keys<K>(b: seq<(K, string)>): (ks: seq<K>)
    ensures |ks| == |b| && forall i :: 0 <= i < |b| ==> ks[i] == b[i].0
  {
    seq(|b|, i requires 0 <= i < |b| => b[i].0)
  }

  /** No key is bound twice, as in a PHP array. */
  predicate DistinctKeys<K(==)>(b: seq<(K, string)>) {
    forall i, j :: 0 <= i < j < |b| ==> b[i].0 != b[j].0
  }

  /** `$map[$k]`, or none when the key is unbound. */
  function Lookup<K(==)>(b: seq<(K, string)>, k: K): (v: Option<string>)
    ensures v.None? <==> k !in Keys(b)
  {
    if b == [] then None
    else if b[0].0 == k then Some(b[0].1)
    else
      assert Keys(b) == [b[0].0] + Keys(b[1..]);
      Lookup(b[1..], k)
  }

  /** The value of a key is the one at its first place in the map. */
  lemma {:induction false} LookupAt<K>(b: seq<(K, string)>, k: K, i: nat)
    requires i < |b| && b[i].0 == k
    requires forall j :: 0 <= j < i ==> b[j].0 != k
    ensures Lookup(b, k) == Some(b[i].1)
  {
    if i > 0 {
      LookupAt(b[1..], k, i - 1);
    }
  }

  /** A key at no place of the map is unbound. */
  lemma {:induction false} LookupAbsent<K>(b: seq<(K, string)>, k: K)
    requires forall j :: 0 <= j < |b| ==> b[j].0 != k
    ensures Lookup(b, k) == None
  {
    if b != [] {
      LookupAbsent(b[1..], k);
    }
  }

  /** In two joined maps, a key bound in the first reads its value from the first. */
  lemma {:induction false} LookupLeft<K>(a: seq<(K, string)>, b: seq<(K, string)>, k: K)
    requires Lookup(a, k).Some?
    ensures Lookup(a + b, k) == Lookup(a, k)
  {
    assert (a + b)[0] == a[0];
    if a[0].0 != k {
      assert (a + b)[1..] == a[1..] + b;
      LookupLeft(a[1..], b, k);
    }
  }

  /** In two joined maps, a key the first lacks reads its value from the second. */
  lemma {:induction false} LookupRight<K>(a: seq<(K, string)>, b: seq<(K, string)>, k: K)
    requires Lookup(a, k).None?
    ensures Lookup(a + b, k) == Lookup(b, k)
  {
    if a == [] {
      assert a + b == b;
    } else {
      assert (a + b)[0] == a[0];
      assert (a + b)[1..] == a[1..] + b;
      LookupRight(a[1..], b, k);
    }
  }

  /** A key bound in the first of four joined maps reads its value from there. */
  lemma LookupFront<K>(a: seq<(K, string)>, b: seq<(K, string)>, c: seq<(K, string)>, d: seq<(K, string)>, k: K)
    requires Lookup(a, k).Some?
    ensures Lookup(a + b + c + d, k) == Lookup(a, k)
  {
    LookupLeft(a, b, k);
    LookupLeft(a + b, c, k);
    LookupLeft(a + b + c, d, k);
  }

  /** A key first bound in the second of four joined maps reads its value from there. */
  lemma LookupSecond<K>(a: seq<(K, string)>, b: seq<(K, string)>, c: seq<(K, string)>, d: seq<(K, string)>, k: K)
    requires Lookup(a, k).None? && Lookup(b, k).Some?
    ensures Lookup(a + b + c + d, k) == Lookup(b, k)
  {
    LookupRight(a, b, k);
    LookupLeft(a + b, c, k);
    LookupLeft(a + b + c, d, k);
  }

  /** A key bound only in the last of four joined maps reads its value from there. */
  lemma LookupLast<K>(a: seq<(K, string)>, b: seq<(K, string)>, c: seq<(K, string)>, d: seq<(K, string)>, k: K)
    requires Lookup(a, k).None? && Lookup(b, k).None? && Lookup(c, k).None?
    ensures Lookup(a + b + c + d, k) == Lookup(d, k)
  {
    LookupRight(a, b, k);
    LookupRight(a + b, c, k);
    LookupRight(a + b + c, d, k);
  }

  /**
    `$map[$k] = $v`: a bound key keeps its place and takes the new value, an
    unbound key is appended.
   */
  function Bind<K(==)>(b: seq<(K, string)>, k: K, v: string): (r: seq<(K, string)>)
    ensures |r| == if k in Keys(b) then |b| else |b| + 1
  {
    if b == [] then [(k, v)]
    else if b[0].0 == k then [(k, v)] + b[1..]
    else
      assert Keys(b) == [b[0].0] + Keys(b[1..]);
      [b[0]] + Bind(b[1..], k, v)
  }

  /** Binding a key that is not bound yet appends it at the end. */
  lemma {:induction false} BindAppends<K>(b: seq<(K, string)>, k: K, v: string)
    requires k !in Keys(b)
    ensures Bind(b, k, v) == b + [(k, v)]
  {
    if b != [] {
      assert Keys(b) == [b[0].0] + Keys(b[1..]);
      BindAppends(b[1..], k, v);
      assert b == [b[0]] + b[1..];
    }
  }

  /** Rebinding a key that is bound keeps every key where it was. */
  lemma BindKeepsKeys<K>(b: seq<(K, string)>, k: K, v: string)
    requires k in Keys(b)
    ensures Keys(Bind(b, k, v)) == Keys(b)
  {
    var j :| 0 <= j < |b| && Keys(b)[j] == k;
    BindKeepsPlaces(b, k, v, j);
  }

  /** Rebinding the key at place `j` changes no key at any place. */
  lemma {:induction false} BindKeepsPlaces<K>(b: seq<(K, string)>, k: K, v: string, j: nat)
    requires j < |b| && b[j].0 == k
    ensures |Bind(b, k, v)| == |b|
    ensures forall i :: 0 <= i < |b| ==> Bind(b, k, v)[i].0 == b[i].0
  {
    var r := Bind(b, k, v);
    if b[0].0 == k {
      assert r == [(k, v)] + b[1..];
      forall i | 0 <= i < |b|
        ensures r[i].0 == b[i].0
      {
        if i > 0 {
          assert r[i] == b[i];
        }
      }
    } else {
      BindKeepsPlaces(b[1..], k, v, j - 1);
      var tail := Bind(b[1..], k, v);
      assert r == [b[0]] + tail;
      forall i | 0 <= i < |b|
        ensures r[i].0 == b[i].0
      {
        if i > 0 {
          assert r[i] == tail[i - 1];
        }
      }
    }
  }

  /** After binding, the key reads back the new value. */
  lemma {:induction false} BindLookup<K>(b: seq<(K, string)>, k: K, v: string)
    ensures Lookup(Bind(b, k, v), k) == Some(v)
  {
    if b != [] && b[0].0 != k {
      BindLookup(b[1..], k, v);
      assert Bind(b, k, v)[1..] == Bind(b[1..], k, v);
    }
  }

  /** Binding one key leaves every other key's value as it was. */
  lemma {:induction false} BindOther<K>(b: seq<(K, string)>, k: K, v: string, other: K)
    requires other != k
    ensures Lookup(Bind(b, k, v), other) == Lookup(b, other)
  {
    var r := Bind(b, k, v);
    if b == [] {
      assert r == [(k, v)];
      assert Lookup(r, other) == Lookup([], other);
    } else if b[0].0 == k {
      assert r[0].0 == k && r[1..] == b[1..];
    } else {
      assert r[0] == b[0] && r[1..] == Bind(b[1..], k, v);
      if b[0].0 != other {
        BindOther(b[1..], k, v, other);
      }
    }
  }

  /** Rebinding keeps the keys distinct. */
  lemma BindDistinct<K>(b: seq<(K, string)>, k: K, v: string)
    requires DistinctKeys(b) && k in Keys(b)
    ensures DistinctKeys(Bind(b, k, v))
  {
    BindKeepsKeys(b, k, v);
    var r := Bind(b, k, v);
    assert forall i :: 0 <= i < |r| ==> r[i].0 == Keys(r)[i] == Keys(b)[i] == b[i].0;
  }

  /**
    `str_replace(array_keys($b), array_values($b), $stub)`: the placeholders
    are replaced one after the other, in map order, each on the text the
    previous ones left.
   */
  function Render(stub: string, b: Bindings): (r: string)
    ensures !StrContains(stub, "{{") ==> r == stub
    decreases |b|
  {
    if b == [] then stub
    else
      var rest := Render(stub, b[..|b| - 1]);
      NoBracesNoPlaceholder(stub, b[|b| - 1].0, b[|b| - 1].1);
      ReplaceAll(rest, Placeholder(b[|b| - 1].0), b[|b| - 1].1)
  }

  /** A text without `{{` holds no placeholder, so replacing one leaves it as it was. */
  lemma NoBracesNoPlaceholder(stub: string, k: Key, v: string)
    ensures !StrContains(stub, "{{") ==> ReplaceAll(stub, Placeholder(k), v) == stub
  {
    if !StrContains(stub, "{{") {
      if StrContains(stub, Placeholder(k)) {
        ContainsPrefix(stub, Placeholder(k), "{{");
      }
      ReplaceAllAbsent(stub, Placeholder(k), v);
    }
  }

  /** Replacing with two maps in a row is replacing with the two maps joined. */
  lemma {:induction false} RenderConcat(stub: string, b1: Bindings, b2: Bindings)
    ensures Render(stub, b1 + b2) == Render(Render(stub, b1), b2)
    decreases |b2|
  {
    if b2 == [] {
      assert b1 + b2 == b1;
    } else {
      var last := b2[|b2| - 1];
      assert (b1 + b2)[..|b1 + b2| - 1] == b1 + b2[..|b2| - 1];
      RenderConcat(stub, b1, b2[..|b2| - 1]);
    }
  }

  /** A stub that holds no placeholder of the map comes back unchanged. */
  lemma {:induction false} RenderPlain(stub: string, b: Bindings)
    requires forall i :: 0 <= i < |b| ==> !StrContains(stub, Placeholder(b[i].0))
    ensures Render(stub, b) == stub
    decreases |b|
  {
    if b != [] {
      RenderPlain(stub, b[..|b| - 1]);
      ReplaceAllAbsent(stub, Placeholder(b[|b| - 1].0), b[|b| - 1].1);
    }
  }

  /** With one placeholder in the map, each occurrence in the stub becomes the value. */
  lemma RenderSingle(stub: string, k: Key, v: string)
    ensures Render(stub, [(k, v)]) == ReplaceAll(stub, Placeholder(k), v)
  {
    assert [(k, v)][..0] == [];
  }
}
