/** The query DSL the host sends and its lowering, `TantivyQueryDsl::to_query`,
    into the engine's query tree. The engine's query objects are modelled by the
    tree they are built as; the string query parser is represented by the
    configuration it is built with. */
module QueryDsl {
  import opened Wrappers
  import opened Errors
  import opened Schemas
  import opened FieldValues
  import P = Primitives

  datatype TantivyOccur = Must | Should | MustNot

  datatype TantivyFuzzyField = TantivyFuzzyField(fieldName: string, prefix: bool, distance: P.U8, transposeCostOne: bool)

  datatype TantivyBooleanClause = TantivyBooleanClause(occur: TantivyOccur, query: TantivyQueryDsl)

  datatype TantivyQueryDsl =
    | All
    | Empty
    | Term(term: DocumentField)
    | TermSet(terms: seq<DocumentField>)
    | Boolean(clauses: seq<TantivyBooleanClause>)
    | Phrase(field: string, words: seq<string>, slop: Option<P.U32>)
    | PhrasePrefix(field: string, words: seq<string>, maxExpansions: Option<P.U32>)
    | Range(field: string, lower: Option<FieldValue>, upper: Option<FieldValue>, includeLower: bool, includeUpper: bool)
    | Regex(field: string, pattern: string)
    | Fuzzy(field: string, word: string, distance: P.U8, transposeCostOne: bool)
    | Exists(field: string)
    | Boost(query: TantivyQueryDsl, boost: P.F32)
    | ConstScore(query: TantivyQueryDsl, score: P.F32)
    | DisjunctionMax(queries: seq<TantivyQueryDsl>, tieBreaker: Option<P.F32>)
    | QueryString(text: string, defaultFields: seq<string>, fuzzyFields: seq<TantivyFuzzyField>)

  // ---------------------------------------------------------------------------
  // The engine's query tree
  // ---------------------------------------------------------------------------

  datatype Occur = OccurMust | OccurShould | OccurMustNot

  datatype Bound = Included(term: FieldValues.Term) | Excluded(term: FieldValues.Term) | Unbounded

  /** `QueryParser::set_field_fuzzy` for one field. */
  datatype FuzzySetting = FuzzySetting(field: nat, prefix: bool, distance: P.U8, transposeCostOne: bool)

  /** A lenient query parser: its default fields and its fuzzy fields. */
  datatype ParserConfig = ParserConfig(defaultFields: seq<nat>, fuzzy: seq<FuzzySetting>)

  /** Slop and maximum expansions stay `None` when the DSL leaves them out: the
      engine's own defaults apply. */
  datatype Query =
    | AllQuery
    | EmptyQuery
    | TermQuery(term: FieldValues.Term, record: IndexRecordOption)
    | TermSetQuery(terms: seq<FieldValues.Term>)
    | BooleanQuery(subqueries: seq<(Occur, Query)>)
    | PhraseQuery(terms: seq<FieldValues.Term>, slop: Option<P.U32>)
    | PhrasePrefixQuery(terms: seq<FieldValues.Term>, maxExpansions: Option<P.U32>)
    | RangeQuery(lower: Bound, upper: Bound)
    | RegexQuery(pattern: string, regexField: nat)
    | FuzzyTermQuery(fuzzyTerm: FieldValues.Term, distance: P.U8, transpositionCostOne: bool)
    | ExistsQuery(fieldName: string, jsonSubpaths: bool)
    | BoostQuery(boosted: Query, boost: P.F32)
    | ConstScoreQuery(scored: Query, score: P.F32)
    | DisjunctionMaxQuery(disjuncts: seq<Query>, tieBreaker: P.F32)
    | ParsedQuery(parser: ParserConfig, text: string)

  /** `occur_from_dsl`. */
  function OccurFromDsl(o: TantivyOccur): Occur {
    match o
    case Must => OccurMust
    case Should => OccurShould
    case MustNot => OccurMustNot
  }

  /** The engine's occurrence back to the DSL's. */
  function OccurToDsl(o: Occur): TantivyOccur {
    match o
    case OccurMust => Must
    case OccurShould => Should
    case OccurMustNot => MustNot
  }

  /** The mapping is one-to-one and onto: `OccurToDsl` undoes it, and it undoes
      `OccurToDsl`. */
  lemma OccurFromDslBijective(a: TantivyOccur, o: Occur)
    ensures OccurToDsl(OccurFromDsl(a)) == a
    ensures OccurFromDsl(OccurToDsl(o)) == o
  {
  }

  // ---------------------------------------------------------------------------
  // Lowering, as a specification
  // ---------------------------------------------------------------------------

  /** The text terms of a phrase, all on one field. */
  function TextTerms(field: nat, words: seq<string>): (r: seq<FieldValues.Term>)
    ensures |r| == |words|
  {
    seq(|words|, i requires 0 <= i < |words| => FieldValues.Term(field, TextTerm(words[i])))
  }

  function Paired(clauses: seq<TantivyBooleanClause>, subs: seq<Query>): (r: seq<(Occur, Query)>)
    requires |subs| == |clauses|
    ensures |r| == |clauses|
  {
    seq(|clauses|, i requires 0 <= i < |clauses| => (OccurFromDsl(clauses[i].occur), subs[i]))
  }

  /** One range bound: a present value becomes a term on the range's field. */
  function BoundOf(ext: Externals, schema: Schema, field: nat, value: Option<FieldValue>, inclusive: bool)
    : Result<Bound, IndexError>
    requires IsField(schema, field)
  {
    match value
    case None => Success(Unbounded)
    case Some(v) =>
      var t :- TermFromFieldValue(ext, schema, field, v);
      Success(if inclusive then Included(t) else Excluded(t))
  }

  function FuzzySettingOf(schema: Schema, f: TantivyFuzzyField): Result<FuzzySetting, IndexError> {
    var field :- GetField(schema, f.fieldName);
    Success(FuzzySetting(field, f.prefix, f.distance, f.transposeCostOne))
  }

  /** The handles of the named fields the schema has, in order; the others are
      dropped. */
  function KnownFields(schema: Schema, names: seq<string>): seq<nat> {
    Somes(seq(|names|, i requires 0 <= i < |names| =>
      if HasField(schema, names[i]) then Some(GetField(schema, names[i]).value) else None))
  }

  /** `build_query_parser`. */
  function BuildQueryParser(schema: Schema, defaultFields: seq<string>, fuzzyFields: seq<TantivyFuzzyField>)
    : Result<ParserConfig, IndexError>
  {
    var fuzzy :- Sequence(seq(|fuzzyFields|, i requires 0 <= i < |fuzzyFields| => FuzzySettingOf(schema, fuzzyFields[i])));
    Success(ParserConfig(KnownFields(schema, defaultFields), fuzzy))
  }

  /** What `to_query` returns for `q`. */
  function Lower(ext: Externals, schema: Schema, q: TantivyQueryDsl): Result<Query, IndexError>
    decreases q
  {
    match q
    case All => Success(AllQuery)
    case Empty => Success(EmptyQuery)
    case Term(df) =>
      var t :- TermFromDocumentField(ext, schema, df);
      Success(TermQuery(t, Basic))
    case TermSet(dfs) =>
      if dfs == [] then Success(EmptyQuery)
      else
        var ts :- TermsOf(ext, schema, dfs);
        Success(TermSetQuery(ts))
    case Boolean(clauses) =>
      var subs :- Sequence(seq(|clauses|, i requires 0 <= i < |clauses| => Lower(ext, schema, clauses[i].query)));
      Success(BooleanQuery(Paired(clauses, subs)))
    case Phrase(name, words, slop) =>
      if |words| < 2 then Failure(QueryError(PHRASE_NEEDS_TWO_TERMS))
      else
        var field :- GetField(schema, name);
        Success(PhraseQuery(TextTerms(field, words), slop))
    case PhrasePrefix(name, words, maxExpansions) =>
      if |words| == 0 then Failure(QueryError(PHRASE_PREFIX_NEEDS_A_TERM))
      else
        var field :- GetField(schema, name);
        Success(PhrasePrefixQuery(TextTerms(field, words), maxExpansions))
    case Range(name, lower, upper, includeLower, includeUpper) =>
      var field :- GetField(schema, name);
      var lo :- BoundOf(ext, schema, field, lower, includeLower);
      var hi :- BoundOf(ext, schema, field, upper, includeUpper);
      if lo.Unbounded? && hi.Unbounded? then Failure(QueryError(RANGE_NEEDS_A_BOUND))
      else Success(RangeQuery(lo, hi))
    case Regex(name, pattern) =>
      var field :- GetField(schema, name);
      if ext.regexCompiles(pattern) then Success(RegexQuery(pattern, field))
      else Failure(TantivyError(InvalidArgument))
    case Fuzzy(name, word, distance, transposeCostOne) =>
      var field :- GetField(schema, name);
      Success(FuzzyTermQuery(FieldValues.Term(field, TextTerm(word)), distance, transposeCostOne))
    case Exists(name) =>
      var field :- GetField(schema, name);
      Success(ExistsQuery(name, false))
    case Boost(inner, boost) =>
      var sub :- Lower(ext, schema, inner);
      Success(BoostQuery(sub, boost))
    case ConstScore(inner, score) =>
      var sub :- Lower(ext, schema, inner);
      Success(ConstScoreQuery(sub, score))
    case DisjunctionMax(qs, tieBreaker) =>
      if qs == [] then Success(EmptyQuery)
      else
        var subs :- Sequence(seq(|qs|, i requires 0 <= i < |qs| => Lower(ext, schema, qs[i])));
        Success(DisjunctionMaxQuery(subs, if tieBreaker.Some? then tieBreaker.value else P.F32_ZERO))
    case QueryString(text, defaultFields, fuzzyFields) =>
      var parser :- BuildQueryParser(schema, defaultFields, fuzzyFields);
      Success(ParsedQuery(parser, text))
  }

  // ---------------------------------------------------------------------------
  // Lowering, as the source computes it
  // ---------------------------------------------------------------------------

  /** `to_query`: the `TermSet`, `Boolean` and `DisjunctionMax` arms collect
      their parts in loops that stop at the first failure; the other arms are
      single expressions. */
  method ToQuery(ext: Externals, schema: Schema, q: TantivyQueryDsl) returns (r: Result<Query, IndexError>)
    ensures r == Lower(ext, schema, q)
    decreases q, 1
  {
    match q {
      case TermSet(dfs) =>
        if dfs == [] {
          return Success(EmptyQuery);
        }
        var ts := TermsFromDocumentFields(ext, schema, dfs);
        if ts.Failure? {
          return Failure(ts.error);
        }
        return Success(TermSetQuery(ts.value));
      case Boolean(clauses) =>
        r := ToBooleanQuery(ext, schema, clauses);
      case DisjunctionMax(qs, tieBreaker) =>
        r := ToDisjunctionMaxQuery(ext, schema, qs, tieBreaker);
      case Boost(inner, boost) =>
        var sub := ToQuery(ext, schema, inner);
        if sub.Failure? {
          return Failure(sub.error);
        }
        return Success(BoostQuery(sub.value, boost));
      case ConstScore(inner, score) =>
        var sub := ToQuery(ext, schema, inner);
        if sub.Failure? {
          return Failure(sub.error);
        }
        return Success(ConstScoreQuery(sub.value, score));
      case _ =>
        return Lower(ext, schema, q);
    }
  }

  /** The `Boolean` arm of `to_query`: the clauses' queries are lowered in
      order, and the first that fails fails the whole query. */
  method ToBooleanQuery(ext: Externals, schema: Schema, clauses: seq<TantivyBooleanClause>)
    returns (r: Result<Query, IndexError>)
    ensures r == Lower(ext, schema, Boolean(clauses))
    decreases Boolean(clauses), 0
  {
    ghost var rs := seq(|clauses|, i requires 0 <= i < |clauses| => Lower(ext, schema, clauses[i].query));
    var subqueries: seq<(Occur, Query)> := [];
    for i := 0 to |clauses|
      invariant |subqueries| == i
      invariant forall j :: 0 <= j < i ==>
                  rs[j].Success? && subqueries[j] == (OccurFromDsl(clauses[j].occur), rs[j].value)
    {
      var sub := ToQuery(ext, schema, clauses[i].query);
      if sub.Failure? {
        SequenceFirstFailure(rs, i);
        return Failure(sub.error);
      }
      subqueries := subqueries + [(OccurFromDsl(clauses[i].occur), sub.value)];
    }
    SequenceValues(rs);
    assert subqueries == Paired(clauses, Sequence(rs).value);
    return Success(BooleanQuery(subqueries));
  }

  /** The `DisjunctionMax` arm of `to_query`: no disjuncts match nothing; the
      tie breaker defaults to zero. */
  method ToDisjunctionMaxQuery(ext: Externals, schema: Schema, qs: seq<TantivyQueryDsl>, tieBreaker: Option<P.F32>)
    returns (r: Result<Query, IndexError>)
    ensures r == Lower(ext, schema, DisjunctionMax(qs, tieBreaker))
    decreases DisjunctionMax(qs, tieBreaker), 0
  {
    if qs == [] {
      return Success(EmptyQuery);
    }
    ghost var rs := seq(|qs|, i requires 0 <= i < |qs| => Lower(ext, schema, qs[i]));
    var disjuncts: seq<Query> := [];
    for i := 0 to |qs|
      invariant |disjuncts| == i
      invariant forall j :: 0 <= j < i ==> rs[j].Success? && disjuncts[j] == rs[j].value
    {
      var sub := ToQuery(ext, schema, qs[i]);
      if sub.Failure? {
        SequenceFirstFailure(rs, i);
        return Failure(sub.error);
      }
      disjuncts := disjuncts + [sub.value];
    }
    SequenceValues(rs);
    assert disjuncts == Sequence(rs).value;
    return Success(DisjunctionMaxQuery(disjuncts, if tieBreaker.Some? then tieBreaker.value else P.F32_ZERO));
  }

  // ---------------------------------------------------------------------------
  // Properties of the lowering
  // ---------------------------------------------------------------------------

  /** When a query lowers, as a rule stated on the DSL alone: every field it
      names exists and accepts the values given for it, phrases have enough
      words, ranges have a bound, regular expressions compile, and every part
      of a compound query lowers. */
  predicate Lowerable(ext: Externals, schema: Schema, q: TantivyQueryDsl)
    decreases q
  {
    match q
    case All => true
    case Empty => true
    case Term(df) => Names(ext, schema, df)
    case TermSet(dfs) => forall i :: 0 <= i < |dfs| ==> Names(ext, schema, dfs[i])
    case Boolean(clauses) => forall i :: 0 <= i < |clauses| ==> Lowerable(ext, schema, clauses[i].query)
    case Phrase(name, words, _) => |words| >= 2 && HasField(schema, name)
    case PhrasePrefix(name, words, _) => |words| >= 1 && HasField(schema, name)
    case Range(name, lower, upper, _, _) =>
      HasField(schema, name) && (lower.Some? || upper.Some?)
      && (lower.Some? ==> Accepts(ext, schema, GetField(schema, name).value, lower.value))
      && (upper.Some? ==> Accepts(ext, schema, GetField(schema, name).value, upper.value))
    case Regex(name, pattern) => HasField(schema, name) && ext.regexCompiles(pattern)
    case Fuzzy(name, _, _, _) => HasField(schema, name)
    case Exists(name) => HasField(schema, name)
    case Boost(inner, _) => Lowerable(ext, schema, inner)
    case ConstScore(inner, _) => Lowerable(ext, schema, inner)
    case DisjunctionMax(qs, _) => forall i :: 0 <= i < |qs| ==> Lowerable(ext, schema, qs[i])
    case QueryString(_, _, fuzzyFields) => forall i :: 0 <= i < |fuzzyFields| ==> HasField(schema, fuzzyFields[i].fieldName)
  }

  lemma BoundOfSucceeds(ext: Externals, schema: Schema, field: nat, value: Option<FieldValue>, inclusive: bool)
    requires IsField(schema, field)
    ensures BoundOf(ext, schema, field, value, inclusive).Success?
        <==> (value.Some? ==> Accepts(ext, schema, field, value.value))
  {
    if value.Some? {
      TermFromFieldValueSucceeds(ext, schema, field, value.value);
    }
  }

  lemma BuildQueryParserSucceeds(schema: Schema, defaultFields: seq<string>, fuzzyFields: seq<TantivyFuzzyField>)
    ensures BuildQueryParser(schema, defaultFields, fuzzyFields).Success?
        <==> forall i :: 0 <= i < |fuzzyFields| ==> HasField(schema, fuzzyFields[i].fieldName)
  {
    var rs := seq(|fuzzyFields|, i requires 0 <= i < |fuzzyFields| => FuzzySettingOf(schema, fuzzyFields[i]));
    assert forall i :: 0 <= i < |fuzzyFields| ==> (rs[i].Success? <==> HasField(schema, fuzzyFields[i].fieldName));
    SequenceSucceeds(rs);
  }

  lemma TermSetSucceeds(ext: Externals, schema: Schema, dfs: seq<DocumentField>)
    ensures Lower(ext, schema, TermSet(dfs)).Success? <==> Lowerable(ext, schema, TermSet(dfs))
  {
    TermsOfSucceeds(ext, schema, dfs);
    forall i | 0 <= i < |dfs| {
      TermFromDocumentFieldSucceeds(ext, schema, dfs[i]);
    }
  }

  lemma RangeSucceeds(ext: Externals, schema: Schema, name: string, lower: Option<FieldValue>, upper: Option<FieldValue>,
                      includeLower: bool, includeUpper: bool)
    ensures Lower(ext, schema, Range(name, lower, upper, includeLower, includeUpper)).Success?
        <==> Lowerable(ext, schema, Range(name, lower, upper, includeLower, includeUpper))
  {
    if HasField(schema, name) {
      BoundOfSucceeds(ext, schema, GetField(schema, name).value, lower, includeLower);
      BoundOfSucceeds(ext, schema, GetField(schema, name).value, upper, includeUpper);
    }
  }

  /** A boolean query lowers once each of its clauses does. */
  lemma BooleanSucceeds(ext: Externals, schema: Schema, clauses: seq<TantivyBooleanClause>)
    requires forall i :: 0 <= i < |clauses| ==>
               (Lower(ext, schema, clauses[i].query).Success? <==> Lowerable(ext, schema, clauses[i].query))
    ensures Lower(ext, schema, Boolean(clauses)).Success? <==> Lowerable(ext, schema, Boolean(clauses))
  {
    var rs := seq(|clauses|, i requires 0 <= i < |clauses| => Lower(ext, schema, clauses[i].query));
    assert forall i :: 0 <= i < |clauses| ==> rs[i] == Lower(ext, schema, clauses[i].query);
    SequenceSucceeds(rs);
  }

  /** A disjunction lowers once each of its parts does. */
  lemma DisjunctionMaxSucceeds(ext: Externals, schema: Schema, qs: seq<TantivyQueryDsl>, tieBreaker: Option<P.F32>)
    requires forall i :: 0 <= i < |qs| ==> (Lower(ext, schema, qs[i]).Success? <==> Lowerable(ext, schema, qs[i]))
    ensures Lower(ext, schema, DisjunctionMax(qs, tieBreaker)).Success? <==> Lowerable(ext, schema, DisjunctionMax(qs, tieBreaker))
  {
    var rs := seq(|qs|, i requires 0 <= i < |qs| => Lower(ext, schema, qs[i]));
    assert forall i :: 0 <= i < |qs| ==> rs[i] == Lower(ext, schema, qs[i]);
    SequenceSucceeds(rs);
  }

  /** Lowering succeeds exactly on the lowerable queries. */
  lemma {:induction false} LowerSucceeds(ext: Externals, schema: Schema, q: TantivyQueryDsl)
    ensures Lower(ext, schema, q).Success? <==> Lowerable(ext, schema, q)
    decreases q
  {
    match q
    case All =>
    case Empty =>
    case Term(df) =>
      TermFromDocumentFieldSucceeds(ext, schema, df);
    case TermSet(dfs) =>
      TermSetSucceeds(ext, schema, dfs);
    case Boolean(clauses) =>
      forall i | 0 <= i < |clauses|
        ensures Lower(ext, schema, clauses[i].query).Success? <==> Lowerable(ext, schema, clauses[i].query)
      {
        LowerSucceeds(ext, schema, clauses[i].query);
      }
      BooleanSucceeds(ext, schema, clauses);
    case Phrase(_, _, _) =>
    case PhrasePrefix(_, _, _) =>
    case Range(name, lower, upper, includeLower, includeUpper) =>
      RangeSucceeds(ext, schema, name, lower, upper, includeLower, includeUpper);
    case Regex(_, _) =>
    case Fuzzy(_, _, _, _) =>
    case Exists(_) =>
    case Boost(inner, _) =>
      LowerSucceeds(ext, schema, inner);
    case ConstScore(inner, _) =>
      LowerSucceeds(ext, schema, inner);
    case DisjunctionMax(qs, tieBreaker) =>
      forall i | 0 <= i < |qs|
        ensures Lower(ext, schema, qs[i]).Success? <==> Lowerable(ext, schema, qs[i])
      {
        LowerSucceeds(ext, schema, qs[i]);
      }
      DisjunctionMaxSucceeds(ext, schema, qs, tieBreaker);
    case QueryString(_, defaultFields, fuzzyFields) =>
      BuildQueryParserSucceeds(schema, defaultFields, fuzzyFields);
  }

  /** An empty term set and an empty disjunction match nothing rather than
      failing, whatever the schema. */
  lemma EmptyListsLowerToEmptyQuery(ext: Externals, schema: Schema, tieBreaker: Option<P.F32>)
    ensures Lower(ext, schema, TermSet([])) == Success(EmptyQuery)
    ensures Lower(ext, schema, DisjunctionMax([], tieBreaker)) == Success(EmptyQuery)
  {
  }

  /** The three DSL shapes rejected outright: a phrase of fewer than two words
      and a phrase prefix of none, before the field is looked up, and a range
      with no bound, once its field is found. */
  lemma RejectedShapes(ext: Externals, schema: Schema, q: TantivyQueryDsl)
    ensures q.Phrase? && |q.words| < 2 ==> Lower(ext, schema, q) == Failure(QueryError(PHRASE_NEEDS_TWO_TERMS))
    ensures q.PhrasePrefix? && |q.words| == 0 ==> Lower(ext, schema, q) == Failure(QueryError(PHRASE_PREFIX_NEEDS_A_TERM))
    ensures q.Range? && q.lower.None? && q.upper.None? && HasField(schema, q.field) ==>
              Lower(ext, schema, q) == Failure(QueryError(RANGE_NEEDS_A_BOUND))
    ensures q.Range? && !HasField(schema, q.field) ==>
              Lower(ext, schema, q) == Failure(TantivyError(FieldNotFound(q.field)))
  {
  }

  /** A bound as the DSL asks for it: none for an absent value; for a present
      one, the value's term on the field, included exactly when `inclusive`. */
  predicate BoundMatches(ext: Externals, schema: Schema, field: nat, value: Option<FieldValue>, inclusive: bool, b: Bound)
    requires IsField(schema, field)
  {
    (value.None? <==> b.Unbounded?)
    && (value.Some? ==>
          (b.Included? <==> inclusive)
          && TermFromFieldValue(ext, schema, field, value.value) == Success(b.term))
  }

  /** A lowered range has the DSL's bounds on its field. */
  lemma RangeBounds(ext: Externals, schema: Schema, name: string, lower: Option<FieldValue>, upper: Option<FieldValue>,
                    includeLower: bool, includeUpper: bool)
    requires Lower(ext, schema, Range(name, lower, upper, includeLower, includeUpper)).Success?
    ensures HasField(schema, name) && (lower.Some? || upper.Some?)
    ensures Lower(ext, schema, Range(name, lower, upper, includeLower, includeUpper)).value.RangeQuery?
    ensures BoundMatches(ext, schema, GetField(schema, name).value, lower, includeLower,
                         Lower(ext, schema, Range(name, lower, upper, includeLower, includeUpper)).value.lower)
    ensures BoundMatches(ext, schema, GetField(schema, name).value, upper, includeUpper,
                         Lower(ext, schema, Range(name, lower, upper, includeLower, includeUpper)).value.upper)
  {
  }

  /** A lowered Boolean query has one subquery per clause, in clause order,
      with the clause's occurrence mapped and its own query lowered. */
  lemma BooleanKeepsClauses(ext: Externals, schema: Schema, clauses: seq<TantivyBooleanClause>)
    requires Lower(ext, schema, Boolean(clauses)).Success?
    ensures |Lower(ext, schema, Boolean(clauses)).value.subqueries| == |clauses|
    ensures forall i :: 0 <= i < |clauses| ==>
              Lower(ext, schema, clauses[i].query).Success?
              && Lower(ext, schema, Boolean(clauses)).value.subqueries[i]
                 == (OccurFromDsl(clauses[i].occur), Lower(ext, schema, clauses[i].query).value)
  {
    var rs := seq(|clauses|, i requires 0 <= i < |clauses| => Lower(ext, schema, clauses[i].query));
    assert forall i :: 0 <= i < |clauses| ==> rs[i] == Lower(ext, schema, clauses[i].query);
    SequenceSucceeds(rs);
    SequenceValues(rs);
  }

  /** A Boolean query whose clause `k` is the first to fail fails with that
      clause's error. */
  lemma BooleanFirstFailure(ext: Externals, schema: Schema, clauses: seq<TantivyBooleanClause>, k: nat)
    requires k < |clauses| && Lower(ext, schema, clauses[k].query).Failure?
    requires forall i :: 0 <= i < k ==> Lower(ext, schema, clauses[i].query).Success?
    ensures Lower(ext, schema, Boolean(clauses)) == Failure(Lower(ext, schema, clauses[k].query).error)
  {
    var rs := seq(|clauses|, i requires 0 <= i < |clauses| => Lower(ext, schema, clauses[i].query));
    SequenceFirstFailure(rs, k);
  }

  /** A phrase (or phrase prefix) is one text term per word, on its field, in
      order. */
  lemma PhraseTerms(ext: Externals, schema: Schema, q: TantivyQueryDsl)
    requires (q.Phrase? || q.PhrasePrefix?) && Lower(ext, schema, q).Success?
    ensures HasField(schema, q.field)
    ensures q.Phrase? ==> Lower(ext, schema, q) == Success(PhraseQuery(Lower(ext, schema, q).value.terms, q.slop))
    ensures q.PhrasePrefix? ==>
              Lower(ext, schema, q) == Success(PhrasePrefixQuery(Lower(ext, schema, q).value.terms, q.maxExpansions))
    ensures |Lower(ext, schema, q).value.terms| == |q.words|
    ensures forall i :: 0 <= i < |q.words| ==>
              Lower(ext, schema, q).value.terms[i] == FieldValues.Term(GetField(schema, q.field).value, TextTerm(q.words[i]))
  {
  }

  /** The string query's parser: the default fields the schema knows, in
      order (unknown names silently dropped), and one fuzzy setting per fuzzy
      field, each of which must exist. */
  lemma QueryParserFields(schema: Schema, defaultFields: seq<string>, fuzzyFields: seq<TantivyFuzzyField>)
    requires BuildQueryParser(schema, defaultFields, fuzzyFields).Success?
    ensures forall f :: f in BuildQueryParser(schema, defaultFields, fuzzyFields).value.defaultFields ==>
              IsField(schema, f) && FieldName(schema, f) in defaultFields
    ensures forall i :: 0 <= i < |defaultFields| && HasField(schema, defaultFields[i]) ==>
              GetField(schema, defaultFields[i]).value in BuildQueryParser(schema, defaultFields, fuzzyFields).value.defaultFields
    ensures |BuildQueryParser(schema, defaultFields, fuzzyFields).value.fuzzy| == |fuzzyFields|
    ensures forall i :: 0 <= i < |fuzzyFields| ==>
              HasField(schema, fuzzyFields[i].fieldName)
              && BuildQueryParser(schema, defaultFields, fuzzyFields).value.fuzzy[i]
              == FuzzySetting(GetField(schema, fuzzyFields[i].fieldName).value, fuzzyFields[i].prefix,
                              fuzzyFields[i].distance, fuzzyFields[i].transposeCostOne)
  {
    var rs := seq(|fuzzyFields|, i requires 0 <= i < |fuzzyFields| => FuzzySettingOf(schema, fuzzyFields[i]));
    SequenceSucceeds(rs);
    SequenceValues(rs);
    var known := seq(|defaultFields|, i requires 0 <= i < |defaultFields| =>
      if HasField(schema, defaultFields[i]) then Some(GetField(schema, defaultFields[i]).value) else None);
    assert forall i :: 0 <= i < |defaultFields| ==>
      known[i] == if HasField(schema, defaultFields[i]) then Some(GetField(schema, defaultFields[i]).value) else None;
    assert forall i :: 0 <= i < |fuzzyFields| ==> rs[i] == FuzzySettingOf(schema, fuzzyFields[i]);
    SomesMembers(known);
  }
}
