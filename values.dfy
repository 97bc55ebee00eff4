/** The document codec: the host's `FieldValue`s, the engine's stored values and
    terms, and the kind-compatibility policy between them and the schema's
    field types (`add_field_value`, `term_from_field_value`,
    `term_from_document_field`, `document_field_from_value`, `doc_to_fields`). */
module FieldValues {
  import opened Wrappers
  import opened Errors
  import opened Schemas
  import P = Primitives

  /** A value as the host sends it. Dates are microseconds since the Unix
      epoch; JSON travels as text. */
  datatype FieldValue =
    | Text(text: string)
    | U64(u: P.U64)
    | I64(i: P.I64)
    | F64(f: P.F64)
    | Bool(b: bool)
    | Date(micros: P.I64)
    | Bytes(bytes: seq<P.U8>)
    | Facet(path: string)
    | Json(json: string)

  datatype DocumentField = DocumentField(name: string, value: FieldValue)

  /** A parsed facet; its representation belongs to the engine. */
  datatype FacetPath = FacetPath(encoded: string)

  /** The engine's `OwnedValue`. */
  datatype OwnedValue =
    | Null
    | Str(s: string)
    | PreTokStr(text: string)
    | U64Value(u: P.U64)
    | I64Value(i: P.I64)
    | F64Value(f: P.F64)
    | BoolValue(b: bool)
    | DateValue(micros: P.I64)
    | FacetValue(facet: FacetPath)
    | BytesValue(bytes: seq<P.U8>)
    | Array(items: seq<OwnedValue>)
    | Object(entries: seq<(string, OwnedValue)>)
    | IpAddr(address: seq<P.U8>)

  /** The library calls the codec relies on, each possibly failing:
      `Facet::from_text`, `Facet::to_path_string`, `serde_json::from_str` into an
      `OwnedValue`, `serde_json::to_string`, and whether `RegexQuery::from_pattern`
      accepts a pattern. */
  datatype Externals = Externals(
    parseFacet: string -> Option<FacetPath>,
    facetPath: FacetPath -> string,
    parseJson: string -> Option<OwnedValue>,
    printJson: OwnedValue -> Option<string>,
    regexCompiles: string -> bool)

  /** An engine term: a field handle and the encoded value. */
  datatype TermPayload =
    | TextTerm(text: string)
    | U64Term(u: P.U64)
    | I64Term(i: P.I64)
    | F64Term(f: P.F64)
    | BoolTerm(b: bool)
    | DateTerm(micros: P.I64)
    | BytesTerm(bytes: seq<P.U8>)
    | FacetTerm(facet: FacetPath)

  datatype Term = Term(field: nat, payload: TermPayload)

  // ---------------------------------------------------------------------------
  // Kinds: the reference for which value goes with which field type
  // ---------------------------------------------------------------------------

  datatype Kind = TextKind | U64Kind | I64Kind | F64Kind | BoolKind | DateKind | BytesKind | FacetKind | JsonKind | IpKind

  function TypeKind(t: FieldType): Kind {
    match t
    case StrField(_) => TextKind
    case U64Field(_) => U64Kind
    case I64Field(_) => I64Kind
    case F64Field(_) => F64Kind
    case BoolField(_) => BoolKind
    case DateField(_) => DateKind
    case BytesField(_) => BytesKind
    case FacetField(_) => FacetKind
    case JsonField(_) => JsonKind
    case IpAddrField => IpKind
  }

  function ValueKind(v: FieldValue): Kind {
    match v
    case Text(_) => TextKind
    case U64(_) => U64Kind
    case I64(_) => I64Kind
    case F64(_) => F64Kind
    case Bool(_) => BoolKind
    case Date(_) => DateKind
    case Bytes(_) => BytesKind
    case Facet(_) => FacetKind
    case Json(_) => JsonKind
  }

  /** The kind of a stored value; a pre-tokenized string is text, and the
      values that no scalar field holds have none. */
  function OwnedKind(v: OwnedValue): Option<Kind> {
    match v
    case Str(_) => Some(TextKind)
    case PreTokStr(_) => Some(TextKind)
    case U64Value(_) => Some(U64Kind)
    case I64Value(_) => Some(I64Kind)
    case F64Value(_) => Some(F64Kind)
    case BoolValue(_) => Some(BoolKind)
    case DateValue(_) => Some(DateKind)
    case FacetValue(_) => Some(FacetKind)
    case BytesValue(_) => Some(BytesKind)
    case _ => None
  }

  // ---------------------------------------------------------------------------
  // Terms
  // ---------------------------------------------------------------------------

  /** `term_from_field_value`. */
  function TermFromFieldValue(ext: Externals, schema: Schema, field: nat, value: FieldValue): Result<Term, IndexError>
    requires IsField(schema, field)
  {
    match (FieldTypeOf(schema, field), value)
    case (StrField(_), Text(s)) => Success(Term(field, TextTerm(s)))
    case (U64Field(_), U64(u)) => Success(Term(field, U64Term(u)))
    case (I64Field(_), I64(i)) => Success(Term(field, I64Term(i)))
    case (F64Field(_), F64(f)) => Success(Term(field, F64Term(f)))
    case (BoolField(_), Bool(b)) => Success(Term(field, BoolTerm(b)))
    case (DateField(_), Date(micros)) => Success(Term(field, DateTerm(micros)))
    case (BytesField(_), Bytes(bytes)) => Success(Term(field, BytesTerm(bytes)))
    case (FacetField(_), Facet(path)) =>
      (match ext.parseFacet(path)
       case Some(facet) => Success(Term(field, FacetTerm(facet)))
       case None => Failure(FacetParseError))
    case (JsonField(_), Json(_)) => Failure(QueryError(JSON_TERM_UNSUPPORTED))
    case _ => Failure(QueryError(TypeMismatch(FieldName(schema, field))))
  }

  /** The value a term was made from, facets aside (they are parsed). */
  function TermValue(p: TermPayload): FieldValue
    requires !p.FacetTerm?
  {
    match p
    case TextTerm(s) => Text(s)
    case U64Term(u) => U64(u)
    case I64Term(i) => I64(i)
    case F64Term(f) => F64(f)
    case BoolTerm(b) => Bool(b)
    case DateTerm(micros) => Date(micros)
    case BytesTerm(bytes) => Bytes(bytes)
  }

  /** The values a field accepts as a term: its own kind, never JSON, and a
      facet only when its path parses. */
  predicate Accepts(ext: Externals, schema: Schema, field: nat, value: FieldValue)
    requires IsField(schema, field)
  {
    ValueKind(value) == TypeKind(FieldTypeOf(schema, field)) && !value.Json?
    && (value.Facet? ==> ext.parseFacet(value.path).Some?)
  }

  /** A term comes out exactly when the field accepts the value; the term is on
      that field and holds the value. */
  lemma TermFromFieldValueSucceeds(ext: Externals, schema: Schema, field: nat, value: FieldValue)
    requires IsField(schema, field)
    ensures TermFromFieldValue(ext, schema, field, value).Success? <==> Accepts(ext, schema, field, value)
    ensures TermFromFieldValue(ext, schema, field, value).Success? ==>
              TermFromFieldValue(ext, schema, field, value).value.field == field
    ensures TermFromFieldValue(ext, schema, field, value).Success? && !value.Facet? ==>
              TermValue(TermFromFieldValue(ext, schema, field, value).value.payload) == value
    ensures TermFromFieldValue(ext, schema, field, value).Success? && value.Facet? ==>
              TermFromFieldValue(ext, schema, field, value).value.payload == FacetTerm(ext.parseFacet(value.path).value)
  {
  }

  /** Every failure other than a facet that does not parse is a `QueryError`;
      a JSON value fails on every field, "not supported" on a JSON field and a
      type mismatch naming the field elsewhere. */
  lemma TermFromFieldValueErrors(ext: Externals, schema: Schema, field: nat, value: FieldValue)
    requires IsField(schema, field)
    ensures TermFromFieldValue(ext, schema, field, value).Failure? && !value.Facet? ==>
              TermFromFieldValue(ext, schema, field, value).error.QueryError?
    ensures TermFromFieldValue(ext, schema, field, value).Failure? && value.Facet?
              && TypeKind(FieldTypeOf(schema, field)) == FacetKind ==>
              TermFromFieldValue(ext, schema, field, value).error == FacetParseError
    ensures value.Json? && FieldTypeOf(schema, field).JsonField? ==>
              TermFromFieldValue(ext, schema, field, value) == Failure(QueryError(JSON_TERM_UNSUPPORTED))
    ensures ValueKind(value) != TypeKind(FieldTypeOf(schema, field)) ==>
              TermFromFieldValue(ext, schema, field, value) == Failure(QueryError(TypeMismatch(FieldName(schema, field))))
  {
  }

  /** `term_from_document_field`: the field is looked up by name first. */
  function TermFromDocumentField(ext: Externals, schema: Schema, df: DocumentField): Result<Term, IndexError>
  {
    var field :- GetField(schema, df.name);
    TermFromFieldValue(ext, schema, field, df.value)
  }

  /** A document field names a field of the schema that accepts its value. */
  predicate Names(ext: Externals, schema: Schema, df: DocumentField) {
    HasField(schema, df.name) && Accepts(ext, schema, GetField(schema, df.name).value, df.value)
  }

  lemma TermFromDocumentFieldSucceeds(ext: Externals, schema: Schema, df: DocumentField)
    ensures TermFromDocumentField(ext, schema, df).Success? <==> Names(ext, schema, df)
    ensures !HasField(schema, df.name) ==>
              TermFromDocumentField(ext, schema, df) == Failure(TantivyError(FieldNotFound(df.name)))
  {
    if HasField(schema, df.name) {
      TermFromFieldValueSucceeds(ext, schema, GetField(schema, df.name).value, df.value);
    }
  }

  /** The terms of a list of document fields, or the first failure. */
  function TermsOf(ext: Externals, schema: Schema, dfs: seq<DocumentField>): Result<seq<Term>, IndexError> {
    Sequence(seq(|dfs|, i requires 0 <= i < |dfs| => TermFromDocumentField(ext, schema, dfs[i])))
  }

  /** The loop of the `TermSet` arm and of `get_docs_by_ids`: every field
      becomes a term, in order, and the first one that cannot stops the loop. */
  method TermsFromDocumentFields(ext: Externals, schema: Schema, dfs: seq<DocumentField>)
    returns (r: Result<seq<Term>, IndexError>)
    ensures r == TermsOf(ext, schema, dfs)
  {
    ghost var rs := seq(|dfs|, i requires 0 <= i < |dfs| => TermFromDocumentField(ext, schema, dfs[i]));
    var terms: seq<Term> := [];
    for i := 0 to |dfs|
      invariant |terms| == i
      invariant forall j :: 0 <= j < i ==> rs[j].Success? && terms[j] == rs[j].value
    {
      var t := TermFromDocumentField(ext, schema, dfs[i]);
      if t.Failure? {
        SequenceFirstFailure(rs, i);
        return Failure(t.error);
      }
      terms := terms + [t.value];
    }
    SequenceValues(rs);
    assert terms == Sequence(rs).value;
    return Success(terms);
  }

  /** The terms of a list fail exactly when one of its fields has no term. */
  lemma TermsOfSucceeds(ext: Externals, schema: Schema, dfs: seq<DocumentField>)
    ensures TermsOf(ext, schema, dfs).Success?
        <==> forall i :: 0 <= i < |dfs| ==> TermFromDocumentField(ext, schema, dfs[i]).Success?
    ensures TermsOf(ext, schema, dfs).Success? ==>
              |TermsOf(ext, schema, dfs).value| == |dfs|
              && forall i :: 0 <= i < |dfs| ==>
                   TermsOf(ext, schema, dfs).value[i] == TermFromDocumentField(ext, schema, dfs[i]).value
  {
    var rs := seq(|dfs|, i requires 0 <= i < |dfs| => TermFromDocumentField(ext, schema, dfs[i]));
    assert forall i :: 0 <= i < |dfs| ==> rs[i] == TermFromDocumentField(ext, schema, dfs[i]);
    SequenceSucceeds(rs);
    if TermsOf(ext, schema, dfs).Success? {
      SequenceValues(rs);
    }
  }

  // ---------------------------------------------------------------------------
  // Documents
  // ---------------------------------------------------------------------------

  /** One value of an engine document, on a field of the schema. */
  datatype Stored = Stored(field: nat, value: OwnedValue)

  /** `add_field_value`: what the document receives for a host value. It does
      not look at the field's type. */
  function StoredValue(ext: Externals, value: FieldValue): (r: Result<OwnedValue, IndexError>)
    ensures r.Failure? ==> (value.Facet? && r.error == FacetParseError) || (value.Json? && r.error == SerializationError)
    ensures r.Failure? <==> ((value.Facet? && ext.parseFacet(value.path).None?)
                             || (value.Json? && ext.parseJson(value.json).None?))
  {
    match value
    case Text(s) => Success(Str(s))
    case U64(u) => Success(U64Value(u))
    case I64(i) => Success(I64Value(i))
    case F64(f) => Success(F64Value(f))
    case Bool(b) => Success(BoolValue(b))
    case Date(micros) => Success(DateValue(micros))
    case Bytes(bytes) => Success(BytesValue(bytes))
    case Facet(path) =>
      (match ext.parseFacet(path)
       case Some(facet) => Success(FacetValue(facet))
       case None => Failure(FacetParseError))
    case Json(json) =>
      (match ext.parseJson(json)
       case Some(v) => Success(v)
       case None => Failure(SerializationError))
  }

  /** `document_field_from_value`: the host value of a stored value, `None` when
      the field's type does not take that kind of value. */
  function DocumentFieldFromValue(ext: Externals, schema: Schema, field: nat, value: OwnedValue)
    : Result<Option<FieldValue>, IndexError>
    requires IsField(schema, field)
  {
    match FieldTypeOf(schema, field)
    case StrField(_) =>
      (match value
       case Str(s) => Success(Some(Text(s)))
       case PreTokStr(text) => Success(Some(Text(text)))
       case _ => Success(None))
    case U64Field(_) => (if value.U64Value? then Success(Some(U64(value.u))) else Success(None))
    case I64Field(_) => (if value.I64Value? then Success(Some(I64(value.i))) else Success(None))
    case F64Field(_) => (if value.F64Value? then Success(Some(F64(value.f))) else Success(None))
    case BoolField(_) => (if value.BoolValue? then Success(Some(Bool(value.b))) else Success(None))
    case DateField(_) => (if value.DateValue? then Success(Some(Date(value.micros))) else Success(None))
    case FacetField(_) =>
      (if value.FacetValue? then Success(Some(Facet(ext.facetPath(value.facet)))) else Success(None))
    case BytesField(_) => (if value.BytesValue? then Success(Some(Bytes(value.bytes))) else Success(None))
    case JsonField(_) =>
      (match ext.printJson(value)
       case Some(json) => Success(Some(Json(json)))
       case None => Failure(SerializationError))
    case IpAddrField => Success(None)
  }

  /** A stored value is skipped exactly when the field is not a JSON field and
      the value's kind is not the field's (always, on an IP-address field); the
      value read back is of the field's kind; only a JSON field can fail. */
  lemma DocumentFieldFromValueKinds(ext: Externals, schema: Schema, field: nat, value: OwnedValue)
    requires IsField(schema, field)
    ensures FieldTypeOf(schema, field).IpAddrField? ==> DocumentFieldFromValue(ext, schema, field, value) == Success(None)
    ensures DocumentFieldFromValue(ext, schema, field, value).Failure? ==>
              FieldTypeOf(schema, field).JsonField? && DocumentFieldFromValue(ext, schema, field, value).error == SerializationError
    ensures !FieldTypeOf(schema, field).JsonField? ==>
              (DocumentFieldFromValue(ext, schema, field, value) == Success(None)
               <==> OwnedKind(value) != Some(TypeKind(FieldTypeOf(schema, field))))
    ensures DocumentFieldFromValue(ext, schema, field, value).Success?
            && DocumentFieldFromValue(ext, schema, field, value).value.Some? ==>
              ValueKind(DocumentFieldFromValue(ext, schema, field, value).value.value) == TypeKind(FieldTypeOf(schema, field))
  {
  }

  /** What indexing stores for a value of the field's kind is read back as
      that value, except that a facet comes back as the engine's rendering of
      the parsed path and JSON as the printing of the parsed string, which
      itself fails when the parsed value does not print. */
  lemma StoredValueRoundTrip(ext: Externals, schema: Schema, field: nat, value: FieldValue)
    requires IsField(schema, field)
    requires ValueKind(value) == TypeKind(FieldTypeOf(schema, field))
    requires StoredValue(ext, value).Success?
    ensures !value.Facet? && !value.Json? ==>
              DocumentFieldFromValue(ext, schema, field, StoredValue(ext, value).value) == Success(Some(value))
    ensures value.Facet? ==>
              DocumentFieldFromValue(ext, schema, field, StoredValue(ext, value).value)
              == Success(Some(Facet(ext.facetPath(ext.parseFacet(value.path).value))))
    ensures value.Json? && ext.printJson(ext.parseJson(value.json).value).Some? ==>
              DocumentFieldFromValue(ext, schema, field, StoredValue(ext, value).value)
              == Success(Some(Json(ext.printJson(ext.parseJson(value.json).value).value)))
    ensures value.Json? && ext.printJson(ext.parseJson(value.json).value).None? ==>
              DocumentFieldFromValue(ext, schema, field, StoredValue(ext, value).value) == Failure(SerializationError)
  {
  }

  /** A value stored under a field of another kind (which indexing allows) is
      dropped when the document is read back. */
  lemma MismatchedValueDropped(ext: Externals, schema: Schema, field: nat, value: FieldValue)
    requires IsField(schema, field)
    requires ValueKind(value) != TypeKind(FieldTypeOf(schema, field)) && !value.Json?
    requires !FieldTypeOf(schema, field).JsonField?
    requires StoredValue(ext, value).Success?
    ensures DocumentFieldFromValue(ext, schema, field, StoredValue(ext, value).value) == Success(None)
  {
  }

  predicate InSchema(schema: Schema, doc: seq<Stored>) {
    forall i :: 0 <= i < |doc| ==> IsField(schema, doc[i].field)
  }

  function ReadField(ext: Externals, schema: Schema, s: Stored): Result<Option<DocumentField>, IndexError>
    requires IsField(schema, s.field)
  {
    var v :- DocumentFieldFromValue(ext, schema, s.field, s.value);
    Success(if v.Some? then Some(DocumentField(FieldName(schema, s.field), v.value)) else None)
  }

  /** `doc_to_fields`, as a specification: the fields read back from the
      document's values, in order, skipping the `None`s, or the first failure. */
  function DocFields(ext: Externals, schema: Schema, doc: seq<Stored>): Result<seq<DocumentField>, IndexError>
    requires InSchema(schema, doc)
  {
    var read :- Sequence(seq(|doc|, i requires 0 <= i < |doc| => ReadField(ext, schema, doc[i])));
    Success(Somes(read))
  }

  /** `doc_to_fields`. */
  method DocToFields(ext: Externals, schema: Schema, doc: seq<Stored>) returns (r: Result<seq<DocumentField>, IndexError>)
    requires InSchema(schema, doc)
    ensures r == DocFields(ext, schema, doc)
  {
    ghost var rs := seq(|doc|, i requires 0 <= i < |doc| => ReadField(ext, schema, doc[i]));
    ghost var read: seq<Option<DocumentField>> := [];
    var fields: seq<DocumentField> := [];
    for i := 0 to |doc|
      invariant |read| == i
      invariant forall j :: 0 <= j < i ==> rs[j].Success? && read[j] == rs[j].value
      invariant fields == Somes(read)
    {
      var v := DocumentFieldFromValue(ext, schema, doc[i].field, doc[i].value);
      if v.Failure? {
        SequenceFirstFailure(rs, i);
        return Failure(v.error);
      }
      ghost var entry := if v.value.Some? then Some(DocumentField(FieldName(schema, doc[i].field), v.value.value)) else None;
      SomesSnoc(read, entry);
      read := read + [entry];
      if v.value.Some? {
        fields := fields + [DocumentField(FieldName(schema, doc[i].field), v.value.value)];
      }
    }
    SequenceValues(rs);
    assert read == Sequence(rs).value;
    return Success(fields);
  }

  /** Reading a document fails exactly when one of its values fails (a JSON
      value that does not serialize); otherwise at most one field per value comes
      out, each named after its schema field. */
  lemma DocFieldsSucceeds(ext: Externals, schema: Schema, doc: seq<Stored>)
    requires InSchema(schema, doc)
    ensures DocFields(ext, schema, doc).Success?
        <==> forall i :: 0 <= i < |doc| ==> DocumentFieldFromValue(ext, schema, doc[i].field, doc[i].value).Success?
    ensures DocFields(ext, schema, doc).Success? ==> |DocFields(ext, schema, doc).value| <= |doc|
  {
    var rs := seq(|doc|, i requires 0 <= i < |doc| => ReadField(ext, schema, doc[i]));
    assert forall i :: 0 <= i < |doc| ==>
      (rs[i].Success? <==> DocumentFieldFromValue(ext, schema, doc[i].field, doc[i].value).Success?);
    SequenceSucceeds(rs);
  }

  /** When each value reads back as a given field under its schema name, the
      document reads back as exactly those fields. */
  lemma DocFieldsReadsEach(ext: Externals, schema: Schema, doc: seq<Stored>, fields: seq<DocumentField>)
    requires InSchema(schema, doc) && |fields| == |doc|
    requires forall i :: 0 <= i < |doc| ==>
               fields[i].name == FieldName(schema, doc[i].field)
               && DocumentFieldFromValue(ext, schema, doc[i].field, doc[i].value) == Success(Some(fields[i].value))
    ensures DocFields(ext, schema, doc) == Success(fields)
  {
    var rs := seq(|doc|, i requires 0 <= i < |doc| => ReadField(ext, schema, doc[i]));
    assert forall i :: 0 <= i < |doc| ==> rs[i] == Success(Some(fields[i]));
    SequenceValues(rs);
    SomesAll(Sequence(rs).value);
    assert Somes(Sequence(rs).value) == fields;
  }

  /** When every value is of its field's kind (and no field is JSON), every
      value comes back, in order, under its field's name. */
  lemma DocFieldsKeepsMatching(ext: Externals, schema: Schema, doc: seq<Stored>)
    requires InSchema(schema, doc)
    requires forall i :: 0 <= i < |doc| ==> !FieldTypeOf(schema, doc[i].field).JsonField?
    requires forall i :: 0 <= i < |doc| ==> OwnedKind(doc[i].value) == Some(TypeKind(FieldTypeOf(schema, doc[i].field)))
    ensures DocFields(ext, schema, doc).Success?
    ensures |DocFields(ext, schema, doc).value| == |doc|
    ensures forall i :: 0 <= i < |doc| ==>
              DocFields(ext, schema, doc).value[i].name == FieldName(schema, doc[i].field)
              && Some(DocFields(ext, schema, doc).value[i].value) == DocumentFieldFromValue(ext, schema, doc[i].field, doc[i].value).value
  {
    var rs := seq(|doc|, i requires 0 <= i < |doc| => ReadField(ext, schema, doc[i]));
    forall i | 0 <= i < |doc|
      ensures rs[i].Success? && rs[i].value.Some?
    {
      DocumentFieldFromValueKinds(ext, schema, doc[i].field, doc[i].value);
    }
    SequenceValues(rs);
    SomesAll(Sequence(rs).value);
  }
}
