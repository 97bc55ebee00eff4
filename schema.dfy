/** The schema side of the binding: the tokenizer names and option records the
    host passes in, the engine field entries they become, and
    `TantivySchemaBuilder`, the object that collects fields until the schema is
    built, exactly once. */
module Schemas {
  import opened Wrappers
  import opened Errors

  // ---------------------------------------------------------------------------
  // Tokenizers and option records
  // ---------------------------------------------------------------------------

  datatype TantivyTokenizer = Raw | Default | Unicode | EnStem | Whitespace

  /** The name under which the engine looks the tokenizer up. */
  function AsStr(t: TantivyTokenizer): (name: string)
    ensures |name| > 0
  {
    match t
    case Raw => "raw"
    case Default => "default"
    case Unicode => "unicode"
    case EnStem => "en_stem"
    case Whitespace => "whitespace"
  }

  /** Five variants, five different names. */
  lemma AsStrInjective(a: TantivyTokenizer, b: TantivyTokenizer)
    ensures AsStr(a) == AsStr(b) <==> a == b
  {
  }

  /** The name `new_with_schema` registers the custom Unicode tokenizer under. */
  const REGISTERED_TOKENIZER: string := "unicode"

  /** The record option and the date precision: the binding's enums map onto the
      engine's variant for variant, so one datatype stands for both. */
  datatype IndexRecordOption = Basic | WithFreqs | WithFreqsAndPositions
  datatype DatePrecision = Seconds | Milliseconds | Microseconds

  datatype TextFieldOptions = TextFieldOptions(
    tokenizer: TantivyTokenizer, record: IndexRecordOption, stored: bool, fast: bool, fieldnorms: bool)

  datatype NumericFieldOptions = NumericFieldOptions(indexed: bool, stored: bool, fast: bool, fieldnorms: bool)

  datatype DateFieldOptions = DateFieldOptions(
    indexed: bool, stored: bool, fast: bool, fieldnorms: bool, precision: DatePrecision)

  datatype FacetFieldOptions = FacetFieldOptions(stored: bool)

  datatype JsonFieldOptions = JsonFieldOptions(
    stored: bool, indexed: bool, fast: bool, tokenizer: TantivyTokenizer, record: IndexRecordOption,
    fieldnorms: bool, expandDots: bool, fastTokenizer: Option<TantivyTokenizer>)

  /** The `Default` impls. */
  const DEFAULT_TEXT_OPTIONS: TextFieldOptions := TextFieldOptions(Unicode, WithFreqsAndPositions, true, false, true)
  const DEFAULT_NUMERIC_OPTIONS: NumericFieldOptions := NumericFieldOptions(true, true, false, false)
  const DEFAULT_DATE_OPTIONS: DateFieldOptions := DateFieldOptions(true, true, false, true, Seconds)
  const DEFAULT_FACET_OPTIONS: FacetFieldOptions := FacetFieldOptions(true)
  const DEFAULT_JSON_OPTIONS: JsonFieldOptions :=
    JsonFieldOptions(true, false, false, Unicode, WithFreqsAndPositions, true, false, None)

  // ---------------------------------------------------------------------------
  // Engine field entries
  // ---------------------------------------------------------------------------

  /** `TextFieldIndexing`: tokenizer name, record option, field norms. */
  datatype TextIndexing = TextIndexing(tokenizer: string, record: IndexRecordOption, fieldnorms: bool)

  /** `TextOptions`; `fast` is `None` when the fast column is off, otherwise the
      name of its tokenizer, if any. */
  datatype TextEntry = TextEntry(indexing: Option<TextIndexing>, stored: bool, fast: Option<Option<string>>)

  /** `NumericOptions`, shared by the u64, i64, f64 and bool fields. */
  datatype NumericEntry = NumericEntry(indexed: bool, stored: bool, fast: bool, fieldnorms: bool)

  datatype DateEntry = DateEntry(indexed: bool, stored: bool, fast: bool, fieldnorms: bool, precision: DatePrecision)

  datatype BytesEntry = BytesEntry(indexed: bool, stored: bool, fast: bool)

  datatype FacetEntry = FacetEntry(stored: bool)

  datatype JsonEntry = JsonEntry(
    indexing: Option<TextIndexing>, stored: bool, fast: Option<Option<string>>, expandDots: bool)

  /** The engine's field types. The binding never adds an IP-address field, but
      a schema may hold one. */
  datatype FieldType =
    | StrField(text: TextEntry)
    | U64Field(numeric: NumericEntry)
    | I64Field(numeric: NumericEntry)
    | F64Field(numeric: NumericEntry)
    | BoolField(numeric: NumericEntry)
    | DateField(date: DateEntry)
    | BytesField(bytes: BytesEntry)
    | FacetField(facet: FacetEntry)
    | JsonField(json: JsonEntry)
    | IpAddrField

  datatype FieldEntry = FieldEntry(name: string, fieldType: FieldType)

  /** A built schema; a field handle is an index into `fields`. */
  datatype Schema = Schema(fields: seq<FieldEntry>)

  predicate IsField(schema: Schema, field: nat) {
    field < |schema.fields|
  }

  function FieldName(schema: Schema, field: nat): string
    requires IsField(schema, field)
  {
    schema.fields[field].name
  }

  function FieldTypeOf(schema: Schema, field: nat): FieldType
    requires IsField(schema, field)
  {
    schema.fields[field].fieldType
  }

  /** The `stored` flag of a field type's options: whether the engine's
      document store keeps the field's values. The model holds no options for
      an IP-address field, which is never read back as a host value anyway. */
  predicate IsStoredType(t: FieldType) {
    match t
    case StrField(e) => e.stored
    case U64Field(e) => e.stored
    case I64Field(e) => e.stored
    case F64Field(e) => e.stored
    case BoolField(e) => e.stored
    case DateField(e) => e.stored
    case BytesField(e) => e.stored
    case FacetField(e) => e.stored
    case JsonField(e) => e.stored
    case IpAddrField => false
  }

  /** `Schema::get_field`: the handle of the field with that name, or a
      `FieldNotFound` engine error. */
  function GetField(schema: Schema, name: string): (r: Result<nat, IndexError>)
    ensures r.Success? ==> IsField(schema, r.value) && FieldName(schema, r.value) == name
    ensures r.Failure? ==> r.error == TantivyError(FieldNotFound(name))
    ensures r.Failure? <==> forall i :: 0 <= i < |schema.fields| ==> schema.fields[i].name != name
  {
    FindField(schema.fields, name, 0)
  }

  function FindField(fields: seq<FieldEntry>, name: string, i: nat): (r: Result<nat, IndexError>)
    requires i <= |fields|
    ensures r.Success? ==> i <= r.value < |fields| && fields[r.value].name == name
    ensures r.Failure? ==> r.error == TantivyError(FieldNotFound(name))
    ensures r.Failure? <==> forall j :: i <= j < |fields| ==> fields[j].name != name
    decreases |fields| - i
  {
    if i == |fields| then Failure(TantivyError(FieldNotFound(name)))
    else if fields[i].name == name then Success(i)
    else FindField(fields, name, i + 1)
  }

  predicate HasField(schema: Schema, name: string) {
    GetField(schema, name).Success?
  }

  // ---------------------------------------------------------------------------
  // From binding options to engine entries (the bodies of the `add_*` methods)
  // ---------------------------------------------------------------------------

  function Indexing(tokenizer: TantivyTokenizer, record: IndexRecordOption, fieldnorms: bool): TextIndexing {
    TextIndexing(AsStr(tokenizer), record, fieldnorms)
  }

  function TextEntryOf(o: TextFieldOptions): TextEntry {
    TextEntry(Some(Indexing(o.tokenizer, o.record, o.fieldnorms)), o.stored, if o.fast then Some(None) else None)
  }

  function NumericEntryOf(o: NumericFieldOptions): NumericEntry {
    NumericEntry(o.indexed, o.stored, o.fast, o.fieldnorms)
  }

  function DateEntryOf(o: DateFieldOptions): DateEntry {
    DateEntry(o.indexed, o.stored, o.fast, o.fieldnorms, o.precision)
  }

  function JsonEntryOf(o: JsonFieldOptions): JsonEntry {
    JsonEntry(
      if o.indexed then Some(Indexing(o.tokenizer, o.record, o.fieldnorms)) else None,
      o.stored,
      if o.fast then Some(match o.fastTokenizer case Some(t) => Some(AsStr(t)) case None => None) else None,
      o.expandDots)
  }

  /** A text field is always indexed, under its tokenizer's name; its fast
      column, when on, has no tokenizer of its own. */
  lemma TextEntryIndexed(o: TextFieldOptions)
    ensures TextEntryOf(o).indexing.Some? && TextEntryOf(o).indexing.value.tokenizer == AsStr(o.tokenizer)
    ensures TextEntryOf(o).fast.Some? <==> o.fast
    ensures TextEntryOf(o).fast.Some? ==> TextEntryOf(o).fast.value.None?
  {
  }

  /** A JSON field is indexed only on request, and its fast column carries the
      name of the fast tokenizer when one is given. */
  lemma JsonEntryIndexedOnRequest(o: JsonFieldOptions)
    ensures JsonEntryOf(o).indexing.Some? <==> o.indexed
    ensures JsonEntryOf(o).fast.Some? <==> o.fast
    ensures o.fast ==> (JsonEntryOf(o).fast.value.Some? <==> o.fastTokenizer.Some?)
    ensures o.fast && o.fastTokenizer.Some? ==> JsonEntryOf(o).fast.value.value == AsStr(o.fastTokenizer.value)
  {
  }

  /** With the default options a text field is analysed by the tokenizer that
      `new_with_schema` registers, with positions, and is stored; a JSON field
      is stored but not indexed. */
  lemma DefaultEntries()
    ensures TextEntryOf(DEFAULT_TEXT_OPTIONS)
         == TextEntry(Some(TextIndexing(REGISTERED_TOKENIZER, WithFreqsAndPositions, true)), true, None)
    ensures JsonEntryOf(DEFAULT_JSON_OPTIONS) == JsonEntry(None, true, None, false)
    ensures DateEntryOf(DEFAULT_DATE_OPTIONS).precision == Seconds
  {
  }

  // ---------------------------------------------------------------------------
  // The builder
  // ---------------------------------------------------------------------------

  /** What adding `entry` does to the builder's state: appended while the
      builder is there, nothing once it has been taken. */
  function Added(builder: Option<seq<FieldEntry>>, entry: FieldEntry): (r: Option<seq<FieldEntry>>)
    ensures r.Some? <==> builder.Some?
    ensures r.Some? ==> |r.value| == |builder.value| + 1 && r.value[..|builder.value|] == builder.value
    ensures r.Some? ==> r.value[|builder.value|] == entry
  {
    match builder
    case Some(fields) => Some(fields + [entry])
    case None => None
  }

  /** `TantivySchemaBuilder`: `Some(fields collected so far)` until the schema
      is built, `None` afterwards. */
  class TantivySchemaBuilder {
    var builder: Option<seq<FieldEntry>>

    constructor ()
      ensures builder == Some([])
    {
      builder := Some([]);
    }

    method AddField(entry: FieldEntry)
      modifies this
      ensures builder == Added(old(builder), entry)
    {
      if builder.Some? {
        builder := Some(builder.value + [entry]);
      }
    }

    method AddTextField(name: string, options: TextFieldOptions)
      modifies this
      ensures builder == Added(old(builder), FieldEntry(name, StrField(TextEntryOf(options))))
    {
      AddField(FieldEntry(name, StrField(TextEntryOf(options))));
    }

    method AddU64Field(name: string, options: NumericFieldOptions)
      modifies this
      ensures builder == Added(old(builder), FieldEntry(name, U64Field(NumericEntryOf(options))))
    {
      AddField(FieldEntry(name, U64Field(NumericEntryOf(options))));
    }

    method AddI64Field(name: string, options: NumericFieldOptions)
      modifies this
      ensures builder == Added(old(builder), FieldEntry(name, I64Field(NumericEntryOf(options))))
    {
      AddField(FieldEntry(name, I64Field(NumericEntryOf(options))));
    }

    method AddF64Field(name: string, options: NumericFieldOptions)
      modifies this
      ensures builder == Added(old(builder), FieldEntry(name, F64Field(NumericEntryOf(options))))
    {
      AddField(FieldEntry(name, F64Field(NumericEntryOf(options))));
    }

    method AddDateField(name: string, options: DateFieldOptions)
      modifies this
      ensures builder == Added(old(builder), FieldEntry(name, DateField(DateEntryOf(options))))
    {
      AddField(FieldEntry(name, DateField(DateEntryOf(options))));
    }

    method AddBoolField(name: string, options: NumericFieldOptions)
      modifies this
      ensures builder == Added(old(builder), FieldEntry(name, BoolField(NumericEntryOf(options))))
    {
      AddField(FieldEntry(name, BoolField(NumericEntryOf(options))));
    }

    method AddBytesField(name: string, stored: bool, fast: bool, indexed: bool)
      modifies this
      ensures builder == Added(old(builder), FieldEntry(name, BytesField(BytesEntry(indexed, stored, fast))))
    {
      AddField(FieldEntry(name, BytesField(BytesEntry(indexed, stored, fast))));
    }

    method AddFacetField(name: string, options: FacetFieldOptions)
      modifies this
      ensures builder == Added(old(builder), FieldEntry(name, FacetField(FacetEntry(options.stored))))
    {
      AddField(FieldEntry(name, FacetField(FacetEntry(options.stored))));
    }

    method AddJsonField(name: string, options: JsonFieldOptions)
      modifies this
      ensures builder == Added(old(builder), FieldEntry(name, JsonField(JsonEntryOf(options))))
    {
      AddField(FieldEntry(name, JsonField(JsonEntryOf(options))));
    }

    /** `take_and_build`: the collected fields become the schema, and the
        builder is gone. */
    method TakeAndBuild() returns (schema: Option<Schema>)
      modifies this
      ensures builder == None
      ensures schema.Some? <==> old(builder).Some?
      ensures schema.Some? ==> schema.value == Schema(old(builder).value)
    {
      match builder {
        case Some(fields) =>
          schema := Some(Schema(fields));
        case None =>
          schema := None;
      }
      builder := None;
    }
  }

  /** The builder's life cycle: fields added before the build are in the
      schema, a field added after it is lost, and building again yields nothing. */
  method BuildOnce(first: FieldEntry, late: FieldEntry) returns (built: Option<Schema>, again: Option<Schema>)
    ensures built == Some(Schema([first]))
    ensures again == None
  {
    var b := new TantivySchemaBuilder();
    b.AddField(first);
    built := b.TakeAndBuild();
    b.AddField(late);
    again := b.TakeAndBuild();
  }
}
