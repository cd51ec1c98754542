/**
  The codec's two directions undo each other: values survive on exactly the unions whose members can be told apart,
  trees on exactly those that read no list.
  */
module CodecProperties {
  import opened Wrappers
  import opened Codec

  lemma {:induction false} FieldsAt(names: seq<string>, trees: seq<Tree>, i: nat)
    requires |names| == |trees| && DistinctNames(names) && i < |names|
    ensures FieldEntries(names, trees)[names[i]] == trees[i]
  {
    if i > 0 {
      assert names[0] != names[i];
      assert DistinctNames(names[1..]) by {
        assert forall j :: 0 <= j < |names[1..]| ==> names[1..][j] == names[j + 1];
      }
      FieldsAt(names[1..], trees[1..], i - 1);
    }
  }

  /** Selecting the fields of a record's entries gives them back, and the tag is the name. */
  lemma EntriesSelect(name: string, names: seq<string>, trees: seq<Tree>)
    requires |names| == |trees| && DistinctNames(names) && TAG !in names
    ensures Select(Entries(name, names, trees), names) == trees
    ensures Entries(name, names, trees).Keys == (set key | key in names) + {TAG}
    ensures TagOf(TDict(Entries(name, names, trees))) == Some(name)
  {
    forall i | 0 <= i < |names|
      ensures Entries(name, names, trees)[names[i]] == trees[i]
    {
      FieldsAt(names, trees, i);
    }
  }

  lemma SelectEntries(name: string, names: seq<string>, entries: map<string, Tree>)
    requires DistinctNames(names) && TAG !in names
    requires entries.Keys == (set key | key in names) + {TAG} && entries[TAG] == TText(name)
    ensures Entries(name, names, Select(entries, names)) == entries
  {
    var trees := Select(entries, names);
    EntriesSelect(name, names, trees);
    forall key | key in entries
      ensures Entries(name, names, trees)[key] == entries[key]
    {
      if key in names {
        var i :| 0 <= i < |names| && names[i] == key;
        FieldsAt(names, trees, i);
      }
    }
  }

  lemma {:induction false} ExactIs(value: Value, variants: seq<Schema>, start: nat, k: nat)
    requires start <= |variants| && k < |variants| && IsExact(value, variants[k])
    requires forall j :: 0 <= j < |variants| && j != k ==> !IsExact(value, variants[j])
    ensures ExactVariants(value, variants, start) == if start <= k then [k] else []
    decreases |variants| - start
  {
    if start < |variants| {
      ExactIs(value, variants, start + 1, k);
    }
  }

  lemma {:induction false} ExactNone(value: Value, variants: seq<Schema>, start: nat)
    requires start <= |variants| && forall j :: 0 <= j < |variants| ==> !IsExact(value, variants[j])
    ensures ExactVariants(value, variants, start) == []
    decreases |variants| - start
  {
    if start < |variants| {
      ExactNone(value, variants, start + 1);
    }
  }

  lemma {:induction false} ExactMember(value: Value, variants: seq<Schema>, start: nat)
    requires start <= |variants|
    ensures forall k :: k in ExactVariants(value, variants, start) ==>
              start <= k < |variants| && IsExact(value, variants[k])
    decreases |variants| - start
  {
    if start < |variants| {
      ExactMember(value, variants, start + 1);
    }
  }

  lemma {:induction false} MatchingIs(tag: Option<string>, variants: seq<Schema>, start: nat, k: nat)
    requires start <= |variants| && k < |variants| && variants[k].SRecord? && tag == Some(variants[k].name)
    requires forall j :: 0 <= j < |variants| && j != k && variants[j].SRecord? ==> tag != Some(variants[j].name)
    ensures MatchingRecords(tag, variants, start) == if start <= k then [k] else []
    decreases |variants| - start
  {
    if start < |variants| {
      MatchingIs(tag, variants, start + 1, k);
    }
  }

  predicate Accepts(tree: Tree, variant: Schema) {
    variant != SNull && Decode(tree, variant).Some?
  }

  lemma {:induction false} SuccessesNone(tree: Tree, variants: seq<Schema>)
    requires forall j :: 0 <= j < |variants| ==> !Accepts(tree, variants[j])
    ensures Successes(tree, variants) == []
  {
    if variants != [] {
      assert !Accepts(tree, variants[0]);
      assert forall j :: 0 <= j < |variants[1..]| ==> variants[1..][j] == variants[j + 1];
      SuccessesNone(tree, variants[1..]);
    }
  }

  lemma {:induction false} SuccessesIs(tree: Tree, variants: seq<Schema>, k: nat, value: Value)
    requires k < |variants| && Accepts(tree, variants[k]) && Decode(tree, variants[k]) == Some(value)
    requires forall j :: 0 <= j < |variants| && j != k ==> !Accepts(tree, variants[j])
    ensures Successes(tree, variants) == [value]
  {
    hide Decode;
    var rest := variants[1..];
    assert forall j :: 0 <= j < |rest| ==> rest[j] == variants[j + 1];
    if k == 0 {
      SuccessesNone(tree, rest);
    } else {
      assert !Accepts(tree, variants[0]);
      SuccessesIs(tree, rest, k - 1, value);
    }
  }

  lemma {:induction false} SuccessFrom(tree: Tree, variants: seq<Schema>) returns (k: nat)
    requires Successes(tree, variants) != []
    ensures k < |variants| && Accepts(tree, variants[k]) && Decode(tree, variants[k]) == Some(Successes(tree, variants)[0])
  {
    if Accepts(tree, variants[0]) {
      k := 0;
    } else {
      k := SuccessFrom(tree, variants[1..]);
      k := k + 1;
    }
  }

  /** At most one success when two accepting variants exist is impossible: both are listed. */
  lemma {:induction false} TwoAccept(tree: Tree, variants: seq<Schema>, i: nat, j: nat)
    requires i < j < |variants| && Accepts(tree, variants[i]) && Accepts(tree, variants[j])
    ensures |Successes(tree, variants)| >= 2
  {
    var rest := variants[1..];
    if i == 0 {
      OneAccepts(tree, rest, j - 1);
    } else {
      TwoAccept(tree, rest, i - 1, j - 1);
    }
  }

  lemma {:induction false} OneAccepts(tree: Tree, variants: seq<Schema>, i: nat)
    requires i < |variants| && Accepts(tree, variants[i])
    ensures |Successes(tree, variants)| >= 1
  {
    if i > 0 {
      OneAccepts(tree, variants[1..], i - 1);
    }
  }

  lemma DifferentClasses(variants: seq<Schema>, i: nat, j: nat)
    requires UnionFormed(variants) && i < |variants| && j < |variants| && i != j
    ensures !SameClass(variants[i], variants[j])
  {
    if j < i {
      assert !SameClass(variants[j], variants[i]);
    }
  }

  lemma Apart(variants: seq<Schema>, i: nat, j: nat)
    requires Distinguishable(variants) && i < |variants| && j < |variants| && i != j
    ensures !Overlap(variants[i], variants[j])
  {
    if j < i {
      assert !Overlap(variants[j], variants[i]);
    }
  }

  /** What a scalar or enum variant writes, no other variant that is apart from it reads. */
  lemma OnlyOneReads(value: Value, a: Schema, b: Schema, tree: Tree)
    requires !a.SUnion? && !b.SUnion? && !SameClass(a, b) && !Overlap(a, b)
    requires IsExact(value, a) && !a.SRecord? && Encode(value, a) == Some(tree)
    ensures !Accepts(tree, b)
  {
    if a.SEnum? && b.SEnum? {
      assert value.member in a.members && value.member !in a.members * b.members;
    }
  }

  // ---- decoding what was encoded ----

  lemma {:induction false} EncodedDecodes(value: Value, schema: Schema)
    requires WellFormed(schema) && Encode(value, schema).Some?
    ensures Decode(Encode(value, schema).value, schema) == Some(value)
    decreases schema
  {
    var tree := Encode(value, schema).value;
    match schema
    case SMany(item) =>
      forall i | 0 <= i < |value.items|
        ensures Decode(tree.items[i], item) == Some(value.items[i])
      {
        EncodedDecodes(value.items[i], item);
      }
      assert AllSome(DecodeMany(tree.items, item)).value == value.items;
    case STuple(items) =>
      forall i | 0 <= i < |items|
        ensures Decode(tree.items[i], items[i]) == Some(value.items[i])
      {
        EncodedDecodes(value.items[i], items[i]);
      }
      assert AllSome(DecodeEach(tree.items, items)).value == value.items;
    case SRecord(name, names, types) =>
      forall i | 0 <= i < |types|
        ensures Decode(Encode(value.fields[i], types[i]).value, types[i]) == Some(value.fields[i])
      {
        EncodedDecodes(value.fields[i], types[i]);
      }
      RecordDecodes(value, schema);
    case SUnion(variants) =>
      if !(value == VNull && SNull in variants) {
        var k := ExactVariants(value, variants, 0)[0];
        EncodedDecodes(value, variants[k]);
        UnionDecodes(value, variants, k);
      }
    case _ =>
  }

  lemma RecordDecodes(value: Value, schema: Schema)
    requires schema.SRecord? && WellFormed(schema) && Encode(value, schema).Some?
    requires forall i :: 0 <= i < |schema.types| ==>
               Encode(value.fields[i], schema.types[i]).Some?
               && Decode(Encode(value.fields[i], schema.types[i]).value, schema.types[i]) == Some(value.fields[i])
    ensures Decode(Encode(value, schema).value, schema) == Some(value)
  {
    var trees := AllSome(EncodeEach(value.fields, schema.types)).value;
    EntriesSelect(schema.name, schema.names, trees);
    assert AllSome(DecodeEach(trees, schema.types)).value == value.fields;
  }

  lemma UnionDecodes(value: Value, variants: seq<Schema>, k: nat)
    requires WellFormed(SUnion(variants)) && k < |variants|
    requires Encode(value, variants[k]).Some? && ExactVariants(value, variants, 0) == [k]
    requires Decode(Encode(value, variants[k]).value, variants[k]) == Some(value)
    ensures Decode(Encode(value, variants[k]).value, SUnion(variants)) == Some(value)
  {
    var tree := Encode(value, variants[k]).value;
    ExactMember(value, variants, 0);
    assert k in ExactVariants(value, variants, 0);
    if variants[k].SRecord? {
      RecordTag(value, variants[k]);
      forall j | 0 <= j < |variants| && j != k && variants[j].SRecord?
        ensures TagOf(tree) != Some(variants[j].name)
      {
        DifferentClasses(variants, k, j);
      }
      MatchingIs(TagOf(tree), variants, 0, k);
    } else {
      forall j | 0 <= j < |variants| && j != k
        ensures !Accepts(tree, variants[j])
      {
        DifferentClasses(variants, k, j);
        Apart(variants, k, j);
        OnlyOneReads(value, variants[k], variants[j], tree);
      }
      SuccessesIs(tree, variants, k, value);
    }
  }

  lemma RecordTag(value: Value, schema: Schema)
    requires schema.SRecord? && WellFormed(schema) && Encode(value, schema).Some?
    ensures Encode(value, schema).value.TDict? && TagOf(Encode(value, schema).value) == Some(schema.name)
  {
    EntriesSelect(schema.name, schema.names, AllSome(EncodeEach(value.fields, schema.types)).value);
  }

  // ---- encoding what was decoded ----

  /** What a variant other than null reads from anything but a list is a value of exactly its own type. */
  lemma ExactDecodes(tree: Tree, variant: Schema)
    requires !variant.SUnion? && variant != SNull && Decode(tree, variant).Some? && !tree.TList?
    ensures IsExact(Decode(tree, variant).value, variant)
  {
  }

  lemma {:induction false} DecodedEncodes(tree: Tree, schema: Schema)
    requires Reversible(schema) && Decode(tree, schema).Some?
    ensures Encode(Decode(tree, schema).value, schema) == Some(tree)
    decreases schema
  {
    var value := Decode(tree, schema).value;
    match schema
    case SMany(item) =>
      forall i | 0 <= i < |tree.items|
        ensures Encode(value.items[i], item) == Some(tree.items[i])
      {
        DecodedEncodes(tree.items[i], item);
      }
      assert AllSome(EncodeMany(value.items, item)).value == tree.items;
    case STuple(items) =>
      forall i | 0 <= i < |items|
        ensures Encode(value.items[i], items[i]) == Some(tree.items[i])
      {
        DecodedEncodes(tree.items[i], items[i]);
      }
      assert AllSome(EncodeEach(value.items, items)).value == tree.items;
    case SRecord(name, names, types) =>
      var trees := Select(tree.entries, names);
      forall i | 0 <= i < |types|
        ensures Encode(value.fields[i], types[i]) == Some(trees[i])
      {
        DecodedEncodes(trees[i], types[i]);
      }
      RecordEncodes(tree, schema);
    case SUnion(variants) =>
      if !(tree == TNull && SNull in variants) {
        var k := AcceptingVariant(tree, variants);
        DecodedEncodes(tree, variants[k]);
        UnionEncodes(tree, value, variants, k);
      }
    case _ =>
  }

  lemma RecordEncodes(tree: Tree, schema: Schema)
    requires schema.SRecord? && Reversible(schema) && Decode(tree, schema).Some?
    requires forall i :: 0 <= i < |schema.types| ==>
               Encode(Decode(tree, schema).value.fields[i], schema.types[i])
               == Some(Select(tree.entries, schema.names)[i])
    ensures Encode(Decode(tree, schema).value, schema) == Some(tree)
  {
    var value := Decode(tree, schema).value;
    SelectEntries(schema.name, schema.names, tree.entries);
    assert AllSome(EncodeEach(value.fields, schema.types)).value == Select(tree.entries, schema.names);
  }

  /** Whatever a union decodes, one of its variants other than null decodes to the same. */
  lemma AcceptingVariant(tree: Tree, variants: seq<Schema>) returns (k: nat)
    requires Decode(tree, SUnion(variants)).Some? && !(tree == TNull && SNull in variants)
    ensures k < |variants| && Accepts(tree, variants[k]) && Decode(tree, variants[k]) == Decode(tree, SUnion(variants))
  {
    var matching := MatchingRecords(TagOf(tree), variants, 0);
    if tree.TDict? && |matching| == 1 {
      k := matching[0];
    } else {
      k := SuccessFrom(tree, variants);
    }
  }

  lemma UnionEncodes(tree: Tree, value: Value, variants: seq<Schema>, k: nat)
    requires UnionFormed(variants) && k < |variants| && !tree.TList?
    requires Accepts(tree, variants[k]) && Decode(tree, variants[k]) == Some(value)
    requires Encode(value, variants[k]) == Some(tree)
    ensures Encode(value, SUnion(variants)) == Some(tree)
  {
    ExactDecodes(tree, variants[k]);
    forall j | 0 <= j < |variants| && j != k
      ensures !IsExact(value, variants[j])
    {
      DifferentClasses(variants, k, j);
    }
    ExactIs(value, variants, 0, k);
  }

  /** Encoding is injective: two values with one tree are one value. */
  lemma EncodingIsInjective(a: Value, b: Value, schema: Schema)
    requires WellFormed(schema) && Encode(a, schema).Some? && Encode(a, schema) == Encode(b, schema)
    ensures a == b
  {
    EncodedDecodes(a, schema);
    EncodedDecodes(b, schema);
  }

  // ---- what is written ----

  /**
    The value is of the type. A value of a union is null, if the union has it, or of the one member that is its own type;
    tuples have no type of their own.
    */
  ghost predicate HasType(value: Value, schema: Schema) {
    match schema
    case SNull => value == VNull
    case SText => value.VText?
    case SInteger => value.VInteger?
    case SBoolean => value.VBoolean?
    case SEnum(name, members) => value.VEnum? && value.name == name && value.member in members
    case SRecord(name, names, types) =>
      && value.VRecord? && value.name == name && |value.fields| == |types|
      && forall i :: 0 <= i < |types| ==> HasType(value.fields[i], types[i])
    case STuple(items) =>
      value.VTuple? && |value.items| == |items| && forall i :: 0 <= i < |items| ==> HasType(value.items[i], items[i])
    case SMany(item) => value.VTuple? && forall i :: 0 <= i < |value.items| ==> HasType(value.items[i], item)
    case SUnion(variants) =>
      || (value == VNull && SNull in variants)
      || (value != VNull && !value.VTuple? && exists k :: 0 <= k < |variants| && HasType(value, variants[k]))
  }

  /** Records name as many fields as they have types, and unions are formed by the language. */
  ghost predicate Formed(schema: Schema) {
    match schema
    case SRecord(_, names, types) => |names| == |types| && forall i :: 0 <= i < |types| ==> Formed(types[i])
    case STuple(items) => forall i :: 0 <= i < |items| ==> Formed(items[i])
    case SMany(item) => Formed(item)
    case SUnion(variants) => UnionFormed(variants) && forall i :: 0 <= i < |variants| ==> Formed(variants[i])
    case _ => true
  }

  /** Exactly the values of the type are encoded. */
  lemma {:induction false} EncodesTyped(value: Value, schema: Schema)
    requires Formed(schema)
    ensures Encode(value, schema).Some? <==> HasType(value, schema)
    decreases schema
  {
    match schema
    case SMany(item) =>
      if value.VTuple? {
        forall i | 0 <= i < |value.items|
          ensures Encode(value.items[i], item).Some? <==> HasType(value.items[i], item)
        {
          EncodesTyped(value.items[i], item);
        }
        assert forall i :: 0 <= i < |value.items| ==> EncodeMany(value.items, item)[i] == Encode(value.items[i], item);
      }
    case STuple(items) =>
      if value.VTuple? && |value.items| == |items| {
        forall i | 0 <= i < |items|
          ensures Encode(value.items[i], items[i]).Some? <==> HasType(value.items[i], items[i])
        {
          EncodesTyped(value.items[i], items[i]);
        }
        assert forall i :: 0 <= i < |items| ==> EncodeEach(value.items, items)[i] == Encode(value.items[i], items[i]);
      }
    case SRecord(name, names, types) =>
      if value.VRecord? && |value.fields| == |types| {
        forall i | 0 <= i < |types|
          ensures Encode(value.fields[i], types[i]).Some? <==> HasType(value.fields[i], types[i])
        {
          EncodesTyped(value.fields[i], types[i]);
        }
        assert forall i :: 0 <= i < |types| ==> EncodeEach(value.fields, types)[i] == Encode(value.fields[i], types[i]);
      }
    case SUnion(variants) =>
      forall k | 0 <= k < |variants|
        ensures Encode(value, variants[k]).Some? <==> HasType(value, variants[k])
      {
        EncodesTyped(value, variants[k]);
      }
      UnionTyped(value, variants);
    case _ =>
  }

  lemma TypedIsExact(value: Value, variant: Schema)
    requires HasType(value, variant) && !variant.SUnion? && value != VNull && !value.VTuple?
    ensures IsExact(value, variant)
  {
  }

  lemma ExactIsNot(value: Value, variant: Schema)
    requires value == VNull || value.VTuple?
    ensures !IsExact(value, variant)
  {
  }

  lemma UnionTyped(value: Value, variants: seq<Schema>)
    requires UnionFormed(variants)
    requires forall k :: 0 <= k < |variants| ==> (Encode(value, variants[k]).Some? <==> HasType(value, variants[k]))
    ensures Encode(value, SUnion(variants)).Some? <==> HasType(value, SUnion(variants))
  {
    ExactMember(value, variants, 0);
    var exact := ExactVariants(value, variants, 0);
    if value == VNull || value.VTuple? {
      forall k | 0 <= k < |variants|
        ensures !IsExact(value, variants[k])
      {
        ExactIsNot(value, variants[k]);
      }
      ExactNone(value, variants, 0);
    } else if exists k :: 0 <= k < |variants| && HasType(value, variants[k]) {
      var k :| 0 <= k < |variants| && HasType(value, variants[k]);
      TypedIsExact(value, variants[k]);
      forall j | 0 <= j < |variants| && j != k
        ensures !IsExact(value, variants[j])
      {
        DifferentClasses(variants, k, j);
      }
      ExactIs(value, variants, 0, k);
    } else if |exact| == 1 {
      assert exact[0] in exact;
    }
  }

  // ---- where it fails ----

  ghost predicate RoundTrips(schema: Schema) {
    forall value :: Encode(value, schema).Some? ==> Decode(Encode(value, schema).value, schema) == Some(value)
  }

  /**
    A union of well-formed members round-trips exactly when no two members read a common text: text beside an enum, or
    two enums with a common member, encode values that are then refused.
    */
  lemma UnionRoundTripsIff(variants: seq<Schema>)
    requires UnionFormed(variants) && forall i :: 0 <= i < |variants| ==> WellFormed(variants[i])
    ensures RoundTrips(SUnion(variants)) <==> Distinguishable(variants)
  {
    if Distinguishable(variants) {
      forall value | Encode(value, SUnion(variants)).Some?
        ensures Decode(Encode(value, SUnion(variants)).value, SUnion(variants)) == Some(value)
      {
        EncodedDecodes(value, SUnion(variants));
      }
    } else {
      var i, j :| 0 <= i < j < |variants| && Overlap(variants[i], variants[j]);
      var value := OverlapWitness(variants, i, j);
      assert Encode(value, SUnion(variants)).Some?;
      assert Decode(Encode(value, SUnion(variants)).value, SUnion(variants)) != Some(value);
    }
  }

  ghost predicate Reverses(schema: Schema) {
    forall tree :: Decode(tree, schema).Some? ==> Encode(Decode(tree, schema).value, schema) == Some(tree)
  }

  /**
    For a union, whatever is decoded can be encoded back to what it came from exactly when it reads no list: a tuple
    member is accepted when reading and has no counterpart when writing.
    */
  lemma UnionReversesIff(variants: seq<Schema>)
    requires UnionFormed(variants) && forall i :: 0 <= i < |variants| ==> Reversible(variants[i])
    ensures Reverses(SUnion(variants)) <==> ReadsNoList(variants)
  {
    if ReadsNoList(variants) {
      forall tree | Decode(tree, SUnion(variants)).Some?
        ensures Encode(Decode(tree, SUnion(variants)).value, SUnion(variants)) == Some(tree)
      {
        DecodedEncodes(tree, SUnion(variants));
      }
    } else {
      var tree: Tree :| tree.TList? && Decode(tree, SUnion(variants)).Some?;
      ListIsNotWritten(tree, variants);
    }
  }

  /** A list that a union decodes becomes a tuple, which no union encodes. */
  lemma ListIsNotWritten(tree: Tree, variants: seq<Schema>)
    requires UnionFormed(variants) && tree.TList? && Decode(tree, SUnion(variants)).Some?
    ensures Encode(Decode(tree, SUnion(variants)).value, SUnion(variants)).None?
  {
    var value := Decode(tree, SUnion(variants)).value;
    var k := AcceptingVariant(tree, variants);
    assert value.VTuple?;
    ExactNone(value, variants, 0);
  }

  predicate NoTuple(variants: seq<Schema>) {
    forall k :: 0 <= k < |variants| ==> !IsTuple(variants[k])
  }

  predicate OnlyTuple(variants: seq<Schema>, k: nat) {
    k < |variants| && IsTuple(variants[k]) && forall j :: 0 <= j < |variants| && j != k ==> !IsTuple(variants[j])
  }

  /** A union without a tuple member reads no list; one with a single tuple member reads what that member reads. */
  lemma TupleMembersReadLists(variants: seq<Schema>)
    requires UnionFormed(variants)
    ensures NoTuple(variants) ==> ReadsNoList(variants)
    ensures forall k: nat, tree: Tree :: OnlyTuple(variants, k) && tree.TList? && Decode(tree, variants[k]).Some? ==>
                                Decode(tree, SUnion(variants)).Some? && !ReadsNoList(variants)
  {
    if NoTuple(variants) {
      forall tree: Tree | tree.TList?
        ensures Decode(tree, SUnion(variants)).None?
      {
        SuccessesNone(tree, variants);
      }
    }
    forall k: nat, tree: Tree | OnlyTuple(variants, k) && tree.TList? && Decode(tree, variants[k]).Some?
      ensures Decode(tree, SUnion(variants)).Some?
    {
      SuccessesIs(tree, variants, k, Decode(tree, variants[k]).value);
    }
  }

  /** An optional tuple of texts: the empty list decodes to the empty tuple, which is then refused. */
  lemma OptionalTupleIsNotWritten()
    ensures var optional := SUnion([SNull, SMany(SText)]);
            && WellFormed(optional) && Decode(TList([]), optional) == Some(VTuple([]))
            && Encode(VTuple([]), optional).None?
  {
    var variants := [SNull, SMany(SText)];
    SuccessesIs(TList([]), variants, 1, VTuple([]));
    ExactNone(VTuple([]), variants, 0);
  }

  lemma OverlapWitness(variants: seq<Schema>, i: nat, j: nat) returns (value: Value)
    requires UnionFormed(variants) && i < j < |variants| && Overlap(variants[i], variants[j])
    ensures Encode(value, SUnion(variants)).Some?
    ensures Decode(Encode(value, SUnion(variants)).value, SUnion(variants)).None?
  {
    var a, b := variants[i], variants[j];
    DifferentClasses(variants, i, j);
    var text := CommonText(a, b);
    value := if a.SEnum? then VEnum(a.name, text) else VText(text);
    forall l | 0 <= l < |variants| && l != i
      ensures !IsExact(value, variants[l])
    {
      DifferentClasses(variants, i, l);
    }
    ExactIs(value, variants, 0, i);
    assert Encode(value, SUnion(variants)) == Some(TText(text));
    assert Accepts(TText(text), a) && Accepts(TText(text), b);
    TwoAccept(TText(text), variants, i, j);
  }

  lemma CommonText(a: Schema, b: Schema) returns (text: string)
    requires Overlap(a, b) && !SameClass(a, b)
    ensures ReadsText(a, text) && ReadsText(b, text)
  {
    if a.SText? {
      text := Member(b.members);
    } else if b.SText? {
      text := Member(a.members);
    } else {
      text := Member(a.members * b.members);
    }
  }
}
