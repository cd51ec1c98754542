/**
  The typed codec (event_codec.py): values of a closed set of types become JSON trees and back. A schema is a resolved
  type annotation; class names identify classes.
  */
module Codec {
  import opened Wrappers

  datatype Schema =
    | SNull
    | SText
    | SInteger
    | SBoolean
    | SEnum(name: string, members: set<string>)
    | SRecord(name: string, names: seq<string>, types: seq<Schema>)
    | STuple(items: seq<Schema>)
    | SMany(item: Schema)
    | SUnion(variants: seq<Schema>)

  datatype Value =
    | VNull
    | VText(text: string)
    | VInteger(number: int)
    | VBoolean(flag: bool)
    | VEnum(name: string, member: string)
    | VRecord(name: string, fields: seq<Value>)
    | VTuple(items: seq<Value>)

  datatype Tree =
    | TNull
    | TText(text: string)
    | TInteger(number: int)
    | TBoolean(flag: bool)
    | TList(items: seq<Tree>)
    | TDict(entries: map<string, Tree>)

  const TAG := "$type"

  // ---- encoding ----

  /** The value's own type is this variant: a scalar type, or a class by its name. */
  predicate IsExact(value: Value, variant: Schema) {
    match variant
    case SText => value.VText?
    case SInteger => value.VInteger?
    case SBoolean => value.VBoolean?
    case SEnum(name, _) => value.VEnum? && value.name == name
    case SRecord(name, _, _) => value.VRecord? && value.name == name
    case _ => false
  }

  function ExactVariants(value: Value, variants: seq<Schema>, start: nat): (indices: seq<nat>)
    requires start <= |variants|
    ensures forall k :: 0 <= k < |indices| ==> indices[k] < |variants|
    decreases |variants| - start
  {
    if start == |variants| then []
    else (if IsExact(value, variants[start]) then [start] else []) + ExactVariants(value, variants, start + 1)
  }

  function AllSome<T>(options: seq<Option<T>>): (all: Option<seq<T>>)
    ensures all.Some? <==> forall i :: 0 <= i < |options| ==> options[i].Some?
    ensures all.Some? ==> |all.value| == |options| && forall i :: 0 <= i < |options| ==> options[i] == Some(all.value[i])
  {
    if options == [] then Some([])
    else
      var rest := AllSome(options[1..]);
      if options[0].None? || rest.None? then None else Some([options[0].value] + rest.value)
  }

  function EncodeEach(items: seq<Value>, schemas: seq<Schema>): (trees: seq<Option<Tree>>)
    requires |items| == |schemas|
    ensures |trees| == |items|
    ensures forall i :: 0 <= i < |items| ==> trees[i] == Encode(items[i], schemas[i])
    decreases schemas
  {
    seq(|items|, i requires 0 <= i < |items| => Encode(items[i], schemas[i]))
  }

  function EncodeMany(items: seq<Value>, schema: Schema): (trees: seq<Option<Tree>>)
    ensures |trees| == |items|
    ensures forall i :: 0 <= i < |items| ==> trees[i] == Encode(items[i], schema)
    decreases schema, 1
  {
    seq(|items|, i requires 0 <= i < |items| => Encode(items[i], schema))
  }

  function Entries(name: string, names: seq<string>, trees: seq<Tree>): map<string, Tree>
    requires |names| == |trees|
  {
    FieldEntries(names, trees)[TAG := TText(name)]
  }

  function FieldEntries(names: seq<string>, trees: seq<Tree>): (entries: map<string, Tree>)
    requires |names| == |trees|
    ensures forall key :: key in entries <==> key in names
  {
    if names == [] then map[] else FieldEntries(names[1..], trees[1..])[names[0] := trees[0]]
  }

  function Encode(value: Value, schema: Schema): Option<Tree>
    decreases schema, 0
  {
    match schema
    case SUnion(variants) =>
      if value == VNull && SNull in variants then Some(TNull)
      else
        var exact := ExactVariants(value, variants, 0);
        if |exact| != 1 then None else Encode(value, variants[exact[0]])
    case SMany(item) =>
      if !value.VTuple? then None
      else
        var trees := AllSome(EncodeMany(value.items, item));
        if trees.None? then None else Some(TList(trees.value))
    case STuple(items) =>
      if !value.VTuple? || |value.items| != |items| then None
      else
        var trees := AllSome(EncodeEach(value.items, items));
        if trees.None? then None else Some(TList(trees.value))
    case SNull => if value == VNull then Some(TNull) else None
    case SText => if value.VText? then Some(TText(value.text)) else None
    case SInteger => if value.VInteger? then Some(TInteger(value.number)) else None
    case SBoolean => if value.VBoolean? then Some(TBoolean(value.flag)) else None
    case SEnum(name, members) =>
      if value.VEnum? && value.name == name && value.member in members then Some(TText(value.member)) else None
    case SRecord(name, names, types) =>
      if !value.VRecord? || value.name != name || |value.fields| != |types| || |names| != |types| then None
      else
        var trees := AllSome(EncodeEach(value.fields, types));
        if trees.None? then None else Some(TDict(Entries(name, names, trees.value)))
  }

  // ---- decoding ----

  function TagOf(tree: Tree): Option<string> {
    if tree.TDict? && TAG in tree.entries && tree.entries[TAG].TText? then Some(tree.entries[TAG].text) else None
  }

  function MatchingRecords(tag: Option<string>, variants: seq<Schema>, start: nat): (indices: seq<nat>)
    requires start <= |variants|
    ensures forall k :: 0 <= k < |indices| ==> indices[k] < |variants| && variants[indices[k]].SRecord?
    decreases |variants| - start
  {
    if start == |variants| then []
    else (if variants[start].SRecord? && tag == Some(variants[start].name) then [start] else [])
         + MatchingRecords(tag, variants, start + 1)
  }

  function DecodeEach(trees: seq<Tree>, schemas: seq<Schema>): (values: seq<Option<Value>>)
    requires |trees| == |schemas|
    ensures |values| == |trees|
    ensures forall i :: 0 <= i < |trees| ==> values[i] == Decode(trees[i], schemas[i])
    decreases schemas
  {
    seq(|trees|, i requires 0 <= i < |trees| => Decode(trees[i], schemas[i]))
  }

  function DecodeMany(trees: seq<Tree>, schema: Schema): (values: seq<Option<Value>>)
    ensures |values| == |trees|
    ensures forall i :: 0 <= i < |trees| ==> values[i] == Decode(trees[i], schema)
    decreases schema, 1
  {
    seq(|trees|, i requires 0 <= i < |trees| => Decode(trees[i], schema))
  }

  /** What the variants other than null make of the tree, those that accept it, in order. */
  function Successes(tree: Tree, variants: seq<Schema>): seq<Value>
    decreases variants
  {
    if variants == [] then []
    else
      var first := if variants[0] == SNull then None else Decode(tree, variants[0]);
      (if first.Some? then [first.value] else []) + Successes(tree, variants[1..])
  }

  function Select(entries: map<string, Tree>, names: seq<string>): (trees: seq<Tree>)
    requires forall i :: 0 <= i < |names| ==> names[i] in entries
    ensures |trees| == |names| && forall i :: 0 <= i < |names| ==> trees[i] == entries[names[i]]
  {
    seq(|names|, i requires 0 <= i < |names| => entries[names[i]])
  }

  function Decode(tree: Tree, schema: Schema): Option<Value>
    decreases schema, 0
  {
    match schema
    case SUnion(variants) =>
      if tree == TNull && SNull in variants then Some(VNull)
      else
        var matching := MatchingRecords(TagOf(tree), variants, 0);
        if tree.TDict? && |matching| == 1 then Decode(tree, variants[matching[0]])
        else
          var successes := Successes(tree, variants);
          if |successes| != 1 then None else Some(successes[0])
    case SMany(item) =>
      if !tree.TList? then None
      else
        var values := AllSome(DecodeMany(tree.items, item));
        if values.None? then None else Some(VTuple(values.value))
    case STuple(items) =>
      if !tree.TList? || |tree.items| != |items| then None
      else
        var values := AllSome(DecodeEach(tree.items, items));
        if values.None? then None else Some(VTuple(values.value))
    case SNull => if tree == TNull then Some(VNull) else None
    case SText => if tree.TText? then Some(VText(tree.text)) else None
    case SInteger => if tree.TInteger? then Some(VInteger(tree.number)) else None
    case SBoolean => if tree.TBoolean? then Some(VBoolean(tree.flag)) else None
    case SEnum(name, members) =>
      if tree.TText? && tree.text in members then Some(VEnum(name, tree.text)) else None
    case SRecord(name, names, types) =>
      if TagOf(tree) != Some(name) || tree.entries.Keys != (set key | key in names) + {TAG} || |names| != |types| then None
      else
        var values := AllSome(DecodeEach(Select(tree.entries, names), types));
        if values.None? then None else Some(VRecord(name, values.value))
  }

  // ---- which schemas are meant ----

  predicate DistinctNames(names: seq<string>) {
    forall i, j :: 0 <= i < j < |names| ==> names[i] != names[j]
  }

  predicate IsTuple(variant: Schema) {
    variant.STuple? || variant.SMany?
  }

  /** The same type, or two classes of one name. */
  predicate SameClass(a: Schema, b: Schema) {
    || a == b || (a.SEnum? && b.SEnum? && a.name == b.name) || (a.SRecord? && b.SRecord? && a.name == b.name)
  }

  predicate ReadsText(variant: Schema, text: string) {
    variant.SText? || (variant.SEnum? && text in variant.members)
  }

  /** Some text is read by both variants. */
  predicate Overlap(a: Schema, b: Schema) {
    || (a.SText? && b.SText?)
    || (a.SText? && b.SEnum? && b.members != {})
    || (a.SEnum? && b.SText? && a.members != {})
    || (a.SEnum? && b.SEnum? && a.members * b.members != {})
  }

  /** A union as the language forms it: nested unions are flattened, and each class occurs once. */
  predicate UnionFormed(variants: seq<Schema>) {
    && (forall i :: 0 <= i < |variants| ==> !variants[i].SUnion?)
    && (forall i, j :: 0 <= i < j < |variants| ==> !SameClass(variants[i], variants[j]))
  }

  predicate Distinguishable(variants: seq<Schema>) {
    forall i, j :: 0 <= i < j < |variants| ==> !Overlap(variants[i], variants[j])
  }

  /** Records name their fields, and unions are formed as above with members told apart, all the way down. */
  predicate WellFormed(schema: Schema) {
    match schema
    case SRecord(_, names, types) =>
      |names| == |types| && DistinctNames(names) && TAG !in names
      && forall i :: 0 <= i < |types| ==> WellFormed(types[i])
    case STuple(items) => forall i :: 0 <= i < |items| ==> WellFormed(items[i])
    case SMany(item) => WellFormed(item)
    case SUnion(variants) =>
      UnionFormed(variants) && Distinguishable(variants) && forall i :: 0 <= i < |variants| ==> WellFormed(variants[i])
    case _ => true
  }

  /** No list decodes as a value of the union. */
  ghost predicate ReadsNoList(variants: seq<Schema>) {
    forall tree: Tree :: tree.TList? ==> Decode(tree, SUnion(variants)).None?
  }

  /** Records name their fields, and unions are formed as above and read no list, all the way down. */
  ghost predicate Reversible(schema: Schema) {
    match schema
    case SRecord(_, names, types) =>
      |names| == |types| && DistinctNames(names) && TAG !in names
      && forall i :: 0 <= i < |types| ==> Reversible(types[i])
    case STuple(items) => forall i :: 0 <= i < |items| ==> Reversible(items[i])
    case SMany(item) => Reversible(item)
    case SUnion(variants) =>
      UnionFormed(variants) && ReadsNoList(variants) && forall i :: 0 <= i < |variants| ==> Reversible(variants[i])
    case _ => true
  }
}
