/** The index façade's own logic: building the schema when the index is
    created, turning the host's documents into engine documents
    (`index_doc`, `index_docs`), and reading documents back by id
    (`get_docs_by_ids`). The engine's writer is the list of documents added to
    it; searching is a parameter. */
module IndexFacade {
  import opened Wrappers
  import opened Errors
  import opened Schemas
  import opened FieldValues

  // ---------------------------------------------------------------------------
  // From host documents to engine documents
  // ---------------------------------------------------------------------------

  /** One host field: skipped when the schema has no field of that name,
      otherwise stored under that field. */
  function StoredField(ext: Externals, schema: Schema, df: DocumentField): (r: Result<Option<Stored>, IndexError>)
    ensures !HasField(schema, df.name) ==> r == Success(None)
    ensures r.Success? && r.value.Some? ==>
              HasField(schema, df.name) && r.value.value.field == GetField(schema, df.name).value
  {
    if !HasField(schema, df.name) then Success(None)
    else
      var v :- StoredValue(ext, df.value);
      Success(Some(Stored(GetField(schema, df.name).value, v)))
  }

  /** The document the loop of `index_doc` builds from `fields`: the fields the
      schema knows, in order, or the first conversion failure. */
  function Built(ext: Externals, schema: Schema, fields: seq<DocumentField>): Result<seq<Stored>, IndexError>
    decreases |fields|
  {
    if fields == [] then Success([])
    else
      var done :- Built(ext, schema, fields[..|fields| - 1]);
      var last :- StoredField(ext, schema, fields[|fields| - 1]);
      Success(done + Present(last))
  }

  lemma BuiltSnoc(ext: Externals, schema: Schema, fields: seq<DocumentField>, f: DocumentField)
    ensures Built(ext, schema, fields + [f])
         == match Built(ext, schema, fields)
            case Failure(e) => Failure(e)
            case Success(done) =>
              (match StoredField(ext, schema, f)
               case Failure(e) => Failure(e)
               case Success(last) => Success(done + Present(last)))
  {
    assert (fields + [f])[..|fields + [f]| - 1] == fields;
  }

  /** A failure in a prefix is the failure of the whole. */
  lemma {:induction false} BuiltFailurePrefix(ext: Externals, schema: Schema, fields: seq<DocumentField>, n: nat)
    requires n <= |fields| && Built(ext, schema, fields[..n]).Failure?
    ensures Built(ext, schema, fields) == Built(ext, schema, fields[..n])
    decreases |fields| - n
  {
    if n < |fields| {
      BuiltSnoc(ext, schema, fields[..n], fields[n]);
      assert fields[..n] + [fields[n]] == fields[..n + 1];
      BuiltFailurePrefix(ext, schema, fields, n + 1);
    } else {
      assert fields[..n] == fields;
    }
  }

  /** The field-filtering loop of `index_doc` and of each document of
      `index_docs`. */
  method BuildDocument(ext: Externals, schema: Schema, fields: seq<DocumentField>)
    returns (r: Result<seq<Stored>, IndexError>)
    ensures r == Built(ext, schema, fields)
  {
    var doc: seq<Stored> := [];
    for i := 0 to |fields|
      invariant Built(ext, schema, fields[..i]) == Success(doc)
    {
      BuiltSnoc(ext, schema, fields[..i], fields[i]);
      assert fields[..i] + [fields[i]] == fields[..i + 1];
      if HasField(schema, fields[i].name) {
        var v := StoredValue(ext, fields[i].value);
        if v.Failure? {
          BuiltFailurePrefix(ext, schema, fields, i + 1);
          return Failure(v.error);
        }
        assert Present(Some(Stored(GetField(schema, fields[i].name).value, v.value)))
            == [Stored(GetField(schema, fields[i].name).value, v.value)];
        doc := doc + [Stored(GetField(schema, fields[i].name).value, v.value)];
      } else {
        assert doc + Present<Stored>(None) == doc;
      }
    }
    assert fields[..|fields|] == fields;
    return Success(doc);
  }

  /** The fields of `fields` whose name the schema has. */
  function KnownOnly(schema: Schema, fields: seq<DocumentField>): (r: seq<DocumentField>)
    ensures forall i :: 0 <= i < |r| ==> HasField(schema, r[i].name)
    decreases |fields|
  {
    if fields == [] then []
    else KnownOnly(schema, fields[..|fields| - 1])
         + (if HasField(schema, fields[|fields| - 1].name) then [fields[|fields| - 1]] else [])
  }

  /** Unknown names are skipped silently: the document built is the one built
      from the known fields alone, failures included. */
  lemma {:induction false} UnknownFieldsSkipped(ext: Externals, schema: Schema, fields: seq<DocumentField>)
    ensures Built(ext, schema, fields) == Built(ext, schema, KnownOnly(schema, fields))
    decreases |fields|
  {
    if fields != [] {
      var prefix, last := fields[..|fields| - 1], fields[|fields| - 1];
      assert fields == prefix + [last];
      UnknownFieldsSkipped(ext, schema, prefix);
      BuiltSnoc(ext, schema, prefix, last);
      if HasField(schema, last.name) {
        BuiltSnoc(ext, schema, KnownOnly(schema, prefix), last);
      } else {
        assert KnownOnly(schema, fields) == KnownOnly(schema, prefix) + [] == KnownOnly(schema, prefix);
        assert StoredField(ext, schema, last) == Success(None);
        if Built(ext, schema, prefix).Success? {
          assert Built(ext, schema, prefix).value + Present<Stored>(None) == Built(ext, schema, prefix).value;
        }
        assert Built(ext, schema, fields) == Built(ext, schema, prefix);
      }
    }
  }

  /** Every built document uses only fields of the schema. */
  lemma {:induction false} BuiltInSchema(ext: Externals, schema: Schema, fields: seq<DocumentField>)
    requires Built(ext, schema, fields).Success?
    ensures InSchema(schema, Built(ext, schema, fields).value)
    decreases |fields|
  {
    if fields != [] {
      BuiltInSchema(ext, schema, fields[..|fields| - 1]);
    }
  }

  /** With every field known and convertible, the document holds every value,
      in order, under its field. */
  lemma {:induction false} BuiltAllKnown(ext: Externals, schema: Schema, fields: seq<DocumentField>)
    requires forall i :: 0 <= i < |fields| ==> HasField(schema, fields[i].name) && StoredValue(ext, fields[i].value).Success?
    ensures Built(ext, schema, fields).Success?
    ensures |Built(ext, schema, fields).value| == |fields|
    ensures forall i :: 0 <= i < |fields| ==>
              HasField(schema, fields[i].name) && StoredValue(ext, fields[i].value).Success? &&
              Built(ext, schema, fields).value[i]
              == Stored(GetField(schema, fields[i].name).value, StoredValue(ext, fields[i].value).value)
    decreases |fields|
  {
    if fields != [] {
      BuiltAllKnown(ext, schema, fields[..|fields| - 1]);
    }
  }

  /** A host field that comes back unchanged from the engine: its name is in
      the schema, its value has the field's kind, a facet path parses and is
      already in the engine's canonical form, and a JSON string parses and is
      already what printing the parsed value gives. */
  predicate RoundTrips(ext: Externals, schema: Schema, f: DocumentField) {
    HasField(schema, f.name) && ValueKind(f.value) == TypeKind(FieldTypeOf(schema, GetField(schema, f.name).value))
    && (f.value.Facet? ==>
          ext.parseFacet(f.value.path).Some? && ext.facetPath(ext.parseFacet(f.value.path).value) == f.value.path)
    && (f.value.Json? ==>
          ext.parseJson(f.value.json).Some? && ext.printJson(ext.parseJson(f.value.json).value) == Some(f.value.json))
  }

  /** Reading back a document whose entries were stored from `fields`. */
  lemma ReadBack(ext: Externals, schema: Schema, fields: seq<DocumentField>, doc: seq<Stored>)
    requires |doc| == |fields| && InSchema(schema, doc)
    requires forall i :: 0 <= i < |fields| ==>
               RoundTrips(ext, schema, fields[i]) && StoredValue(ext, fields[i].value).Success?
               && doc[i] == Stored(GetField(schema, fields[i].name).value, StoredValue(ext, fields[i].value).value)
    ensures DocFields(ext, schema, doc) == Success(fields)
  {
    forall i | 0 <= i < |doc|
      ensures fields[i].name == FieldName(schema, doc[i].field)
      ensures DocumentFieldFromValue(ext, schema, doc[i].field, doc[i].value) == Success(Some(fields[i].value))
    {
      StoredValueRoundTrip(ext, schema, doc[i].field, fields[i].value);
    }
    DocFieldsReadsEach(ext, schema, doc, fields);
  }

  /** A document of fields that each round-trip is read back exactly as it
      was indexed. */
  lemma IndexThenRead(ext: Externals, schema: Schema, fields: seq<DocumentField>)
    requires forall i :: 0 <= i < |fields| ==> RoundTrips(ext, schema, fields[i])
    ensures Built(ext, schema, fields).Success?
    ensures InSchema(schema, Built(ext, schema, fields).value)
    ensures DocFields(ext, schema, Built(ext, schema, fields).value) == Success(fields)
  {
    forall i | 0 <= i < |fields|
      ensures HasField(schema, fields[i].name) && StoredValue(ext, fields[i].value).Success?
    {
    }
    BuiltAllKnown(ext, schema, fields);
    BuiltInSchema(ext, schema, fields);
    ReadBack(ext, schema, fields, Built(ext, schema, fields).value);
  }

  // ---------------------------------------------------------------------------
  // The index
  // ---------------------------------------------------------------------------

  /** `index_docs` stops at the first document that does not build; this is its
      position, or the number of documents when all build. */
  function FirstUnbuilt(ext: Externals, schema: Schema, docs: seq<seq<DocumentField>>, i: nat): (k: nat)
    requires i <= |docs|
    ensures i <= k <= |docs|
    ensures forall j :: i <= j < k ==> Built(ext, schema, docs[j]).Success?
    ensures k < |docs| ==> Built(ext, schema, docs[k]).Failure?
    decreases |docs| - i
  {
    if i == |docs| || Built(ext, schema, docs[i]).Failure? then i
    else FirstUnbuilt(ext, schema, docs, i + 1)
  }

  /** The documents built from the first `n` of `docs`, all of which build. */
  function BuiltDocs(ext: Externals, schema: Schema, docs: seq<seq<DocumentField>>, n: nat): (r: seq<seq<Stored>>)
    requires n <= |docs|
    requires forall j :: 0 <= j < n ==> Built(ext, schema, docs[j]).Success?
    ensures |r| == n
    ensures forall k :: 0 <= k < n ==> r[k] == Built(ext, schema, docs[k]).value
  {
    if n == 0 then [] else BuiltDocs(ext, schema, docs, n - 1) + [Built(ext, schema, docs[n - 1]).value]
  }

  /** The index: its schema, and the documents handed to its writer. */
  class TantivyIndex {
    const schema: Schema
    var added: seq<seq<Stored>>

    ghost predicate Valid()
      reads this
    {
      forall k :: 0 <= k < |added| ==> InSchema(schema, added[k])
    }

    constructor (schema: Schema)
      ensures this.schema == schema && added == [] && Valid()
    {
      this.schema := schema;
      added := [];
    }

    /** `index_doc`: the document is built and added, or nothing is added and
        the conversion error is returned. */
    method IndexDoc(ext: Externals, fields: seq<DocumentField>) returns (r: Result<(), IndexError>)
      requires Valid()
      modifies this
      ensures Valid()
      ensures r.Success? <==> Built(ext, schema, fields).Success?
      ensures r.Success? ==> added == old(added) + [Built(ext, schema, fields).value]
      ensures r.Failure? ==> r.error == Built(ext, schema, fields).error && added == old(added)
    {
      var doc := BuildDocument(ext, schema, fields);
      if doc.Failure? {
        return Failure(doc.error);
      }
      BuiltInSchema(ext, schema, fields);
      added := added + [doc.value];
      return Success(());
    }

    /** `index_docs`: the documents are built and added one by one; at the first
        that does not build the call fails, and the documents before it stay
        added. */
    method IndexDocs(ext: Externals, docs: seq<seq<DocumentField>>) returns (r: Result<(), IndexError>)
      requires Valid()
      modifies this
      ensures Valid()
      ensures r.Success? <==> FirstUnbuilt(ext, schema, docs, 0) == |docs|
      ensures r.Failure? ==> r.error == Built(ext, schema, docs[FirstUnbuilt(ext, schema, docs, 0)]).error
      ensures added == old(added) + BuiltDocs(ext, schema, docs, FirstUnbuilt(ext, schema, docs, 0))
    {
      ghost var before := added;
      for i := 0 to |docs|
        invariant Valid()
        invariant FirstUnbuilt(ext, schema, docs, 0) == FirstUnbuilt(ext, schema, docs, i)
        invariant added == before + BuiltDocs(ext, schema, docs, i)
      {
        var doc := BuildDocument(ext, schema, docs[i]);
        if doc.Failure? {
          return Failure(doc.error);
        }
        BuiltInSchema(ext, schema, docs[i]);
        added := added + [doc.value];
      }
      return Success(());
    }
  }

  /** `new_with_schema`. `directory` is the outcome of opening (or creating,
      then opening) the index directory; the builder is consumed only once the
      directory is there, and a builder already consumed is an error. */
  method NewWithSchema(directory: Result<(), IndexError>, builder: TantivySchemaBuilder)
    returns (r: Result<TantivyIndex, IndexError>)
    modifies builder
    ensures directory.Failure? ==> r == Failure(directory.error) && builder.builder == old(builder.builder)
    ensures directory.Success? ==> builder.builder == None
    ensures directory.Success? && old(builder.builder).None? ==> r == Failure(SchemaBuilderError(SCHEMA_TAKEN))
    ensures directory.Success? && old(builder.builder).Some? ==>
              r.Success? && fresh(r.value) && r.value.Valid()
              && r.value.schema == Schema(old(builder.builder).value) && r.value.added == []
  {
    if directory.Failure? {
      return Failure(directory.error);
    }
    var schema := builder.TakeAndBuild();
    if schema.None? {
      return Failure(SchemaBuilderError(SCHEMA_TAKEN));
    }
    var index := new TantivyIndex(schema.value);
    return Success(index);
  }

  /** Two indexes over one builder: the second cannot be created. */
  method SecondIndexFails(directory: Result<(), IndexError>)
    returns (first: Result<TantivyIndex, IndexError>, second: Result<TantivyIndex, IndexError>)
    requires directory.Success?
    ensures first.Success?
    ensures second == Failure(SchemaBuilderError(SCHEMA_TAKEN))
  {
    var builder := new TantivySchemaBuilder();
    first := NewWithSchema(directory, builder);
    second := NewWithSchema(directory, builder);
  }

  // ---------------------------------------------------------------------------
  // Reading documents back
  // ---------------------------------------------------------------------------

  /** The engine's search for the given terms with a result limit, as document
      addresses into the store, or an engine failure. */
  type Search = (seq<FieldValues.Term>, nat) -> Result<seq<nat>, IndexError>

  /** What the engine's document store keeps of an added document: the
      entries of stored fields, in order. */
  function StoredOnly(schema: Schema, doc: seq<Stored>): (r: seq<Stored>)
    requires InSchema(schema, doc)
    ensures |r| <= |doc|
    ensures InSchema(schema, r)
    decreases |doc|
  {
    if doc == [] then []
    else
      StoredOnly(schema, doc[..|doc| - 1])
      + (if IsStoredType(FieldTypeOf(schema, doc[|doc| - 1].field)) then [doc[|doc| - 1]] else [])
  }

  /** The store keeps exactly the entries of stored fields. */
  lemma {:induction false} StoredOnlyMembers(schema: Schema, doc: seq<Stored>)
    requires InSchema(schema, doc)
    ensures forall s :: s in StoredOnly(schema, doc) <==>
              s in doc && IsField(schema, s.field) && IsStoredType(FieldTypeOf(schema, s.field))
    decreases |doc|
  {
    if doc != [] {
      StoredOnlyMembers(schema, doc[..|doc| - 1]);
      assert doc == doc[..|doc| - 1] + [doc[|doc| - 1]];
    }
  }

  /** A document whose every entry is of a stored field is kept whole. */
  lemma {:induction false} StoredOnlyAllStored(schema: Schema, doc: seq<Stored>)
    requires InSchema(schema, doc)
    requires forall i :: 0 <= i < |doc| ==> IsStoredType(FieldTypeOf(schema, doc[i].field))
    ensures StoredOnly(schema, doc) == doc
    decreases |doc|
  {
    if doc != [] {
      StoredOnlyAllStored(schema, doc[..|doc| - 1]);
      assert doc == doc[..|doc| - 1] + [doc[|doc| - 1]];
    }
  }

  /** A document with no entry of a stored field is not kept at all. */
  lemma {:induction false} StoredOnlyNoneStored(schema: Schema, doc: seq<Stored>)
    requires InSchema(schema, doc)
    requires forall i :: 0 <= i < |doc| && IsField(schema, doc[i].field) ==> !IsStoredType(FieldTypeOf(schema, doc[i].field))
    ensures StoredOnly(schema, doc) == []
    decreases |doc|
  {
    if doc != [] {
      StoredOnlyNoneStored(schema, doc[..|doc| - 1]);
    }
  }

  /** One stored document, read back: only its stored fields come out; an
      address the store does not hold is an engine failure. */
  function ReadStored(ext: Externals, schema: Schema, store: seq<seq<Stored>>, address: nat)
    : Result<seq<DocumentField>, IndexError>
    requires forall k :: 0 <= k < |store| ==> InSchema(schema, store[k])
  {
    if address < |store| then DocFields(ext, schema, StoredOnly(schema, store[address])) else Failure(TantivyError(Other))
  }

  /** A document none of whose entries is of a stored field reads back empty. */
  lemma UnstoredNotRead(ext: Externals, schema: Schema, store: seq<seq<Stored>>, address: nat)
    requires forall k :: 0 <= k < |store| ==> InSchema(schema, store[k])
    requires address < |store|
    requires forall i :: 0 <= i < |store[address]| && IsField(schema, store[address][i].field) ==>
               !IsStoredType(FieldTypeOf(schema, store[address][i].field))
    ensures ReadStored(ext, schema, store, address) == Success([])
  {
    StoredOnlyNoneStored(schema, store[address]);
  }

  /** A field the engine's store keeps: its name is in the schema and the
      field's options say stored. */
  predicate StoredInSchema(schema: Schema, name: string) {
    HasField(schema, name) && IsStoredType(FieldTypeOf(schema, GetField(schema, name).value))
  }

  /** A document added from fields that each round-trip and are stored is read
      back from the store exactly as it was indexed. */
  lemma StoreThenRead(ext: Externals, schema: Schema, store: seq<seq<Stored>>, address: nat, fields: seq<DocumentField>)
    requires forall k :: 0 <= k < |store| ==> InSchema(schema, store[k])
    requires forall i :: 0 <= i < |fields| ==> RoundTrips(ext, schema, fields[i]) && StoredInSchema(schema, fields[i].name)
    requires Built(ext, schema, fields).Success?
    requires address < |store| && store[address] == Built(ext, schema, fields).value
    ensures ReadStored(ext, schema, store, address) == Success(fields)
  {
    IndexThenRead(ext, schema, fields);
    forall i | 0 <= i < |fields|
      ensures HasField(schema, fields[i].name) && StoredValue(ext, fields[i].value).Success?
    {
    }
    BuiltAllKnown(ext, schema, fields);
    StoredOnlyAllStored(schema, store[address]);
  }

  /** What `get_docs_by_ids` returns. */
  function DocsByIds(ext: Externals, schema: Schema, store: seq<seq<Stored>>, ids: seq<DocumentField>, search: Search)
    : Result<seq<seq<DocumentField>>, IndexError>
    requires forall k :: 0 <= k < |store| ==> InSchema(schema, store[k])
  {
    if ids == [] then Success([])
    else
      var terms :- TermsOf(ext, schema, ids);
      var addresses :- search(terms, |ids|);
      Sequence(seq(|addresses|, i requires 0 <= i < |addresses| => ReadStored(ext, schema, store, addresses[i])))
  }

  /** The read-back loop of `get_docs_by_ids`: each hit's stored fields, in
      order, or the first failure. */
  method ReadHits(ext: Externals, schema: Schema, store: seq<seq<Stored>>, addresses: seq<nat>)
    returns (r: Result<seq<seq<DocumentField>>, IndexError>)
    requires forall k :: 0 <= k < |store| ==> InSchema(schema, store[k])
    ensures r == Sequence(seq(|addresses|, i requires 0 <= i < |addresses| => ReadStored(ext, schema, store, addresses[i])))
  {
    ghost var rs := seq(|addresses|, i requires 0 <= i < |addresses| => ReadStored(ext, schema, store, addresses[i]));
    var docs: seq<seq<DocumentField>> := [];
    for i := 0 to |addresses|
      invariant |docs| == i
      invariant forall j :: 0 <= j < i ==> rs[j].Success? && docs[j] == rs[j].value
    {
      var address := addresses[i];
      if address >= |store| {
        SequenceFirstFailure(rs, i);
        return Failure(TantivyError(Other));
      }
      var doc := DocToFields(ext, schema, StoredOnly(schema, store[address]));
      if doc.Failure? {
        SequenceFirstFailure(rs, i);
        return Failure(doc.error);
      }
      docs := docs + [doc.value];
    }
    SequenceValues(rs);
    assert docs == Sequence(rs).value;
    return Success(docs);
  }

  /** `get_docs_by_ids`. */
  method GetDocsByIds(ext: Externals, index: TantivyIndex, ids: seq<DocumentField>, search: Search)
    returns (r: Result<seq<seq<DocumentField>>, IndexError>)
    requires index.Valid()
    ensures r == DocsByIds(ext, index.schema, index.added, ids, search)
  {
    if ids == [] {
      return Success([]);
    }
    var terms := TermsFromDocumentFields(ext, index.schema, ids);
    if terms.Failure? {
      return Failure(terms.error);
    }
    var addresses := search(terms.value, |ids|);
    if addresses.Failure? {
      return Failure(addresses.error);
    }
    r := ReadHits(ext, index.schema, index.added, addresses.value);
  }

  /** No ids: an empty answer, whatever the store and without searching; with
      ids, a field that has no term fails the call before any search. */
  lemma DocsByIdsGuards(ext: Externals, schema: Schema, store: seq<seq<Stored>>, ids: seq<DocumentField>, search: Search)
    requires forall k :: 0 <= k < |store| ==> InSchema(schema, store[k])
    ensures ids == [] ==> DocsByIds(ext, schema, store, ids, search) == Success([])
    ensures ids != [] && TermsOf(ext, schema, ids).Failure? ==>
              DocsByIds(ext, schema, store, ids, search) == Failure(TermsOf(ext, schema, ids).error)
  {
  }
}
