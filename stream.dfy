/** Emission of the tokens: the stream that hands the pending tokens, one at a
    time, to the indexer through a reusable `Token`, and the tokenizer object
    that owns that `Token`. */
module TokenStream {
  import T = UnicodeTokenizer

  /** The range of a 64-bit `usize`. */
  const USIZE_MODULUS: int := 0x1_0000_0000_0000_0000
  newtype Usize = x: int | 0 <= x < 0x1_0000_0000_0000_0000

  const USIZE_MAX: Usize := 0xFFFF_FFFF_FFFF_FFFF

  /** `usize::wrapping_add(1)`. */
  function WrappingInc(p: Usize): (r: Usize)
    ensures r as int == (p as int + 1) % USIZE_MODULUS
  {
    if p == USIZE_MAX then 0 else p + 1
  }

  /** The indexer's view of one emitted token. */
  datatype Snapshot = Snapshot(text: string, position: Usize, offsetFrom: nat, offsetTo: nat)

  /** The engine's token record, overwritten in place by every `advance`. */
  class Token {
    var text: string
    var position: Usize
    var offsetFrom: nat
    var offsetTo: nat
    var positionLength: nat

    /** The engine's default token: empty, at position `usize::MAX`, so that the
        first increment yields position 0. */
    constructor Default()
      ensures text == [] && position == USIZE_MAX && offsetFrom == 0 && offsetTo == 0 && positionLength == 1
    {
      text, position, offsetFrom, offsetTo, positionLength := [], USIZE_MAX, 0, 0, 1;
    }

    function Snap(): Snapshot
      reads this
    {
      Snapshot(text, position, offsetFrom, offsetTo)
    }
  }

  /** What a stream whose token stands at position `start` hands out for the
      pending tokens `ts`: each one, at the next position. */
  function Emitted(start: Usize, ts: seq<T.PendingToken>): (r: seq<Snapshot>)
    ensures |r| == |ts|
    decreases |ts|
  {
    if ts == [] then []
    else [Snapshot(ts[0].text, WrappingInc(start), ts[0].offsetFrom, ts[0].offsetTo)] + Emitted(WrappingInc(start), ts[1..])
  }

  /** The `k`-th emitted token carries the `k`-th pending token, `k + 1` positions after `start`. */
  lemma {:induction false} EmittedAt(start: Usize, ts: seq<T.PendingToken>, k: nat)
    requires k < |ts|
    ensures Emitted(start, ts)[k]
         == Snapshot(ts[k].text, ((start as int + k + 1) % USIZE_MODULUS) as Usize, ts[k].offsetFrom, ts[k].offsetTo)
    decreases k
  {
    if k > 0 {
      EmittedAt(WrappingInc(start), ts[1..], k - 1);
    }
  }

  /** From a fresh token the positions are 0, 1, 2, ...: the position is the index. */
  lemma EmittedFromDefault(ts: seq<T.PendingToken>, k: nat)
    requires k < |ts| && k < USIZE_MODULUS
    ensures Emitted(USIZE_MAX, ts)[k] == Snapshot(ts[k].text, k as Usize, ts[k].offsetFrom, ts[k].offsetTo)
  {
    EmittedAt(USIZE_MAX, ts, k);
    assert (USIZE_MAX as int + k + 1) % USIZE_MODULUS == k;
  }

  lemma EmittedUnfold(start: Usize, ts: seq<T.PendingToken>)
    requires ts != []
    ensures Emitted(start, ts)
         == [Snapshot(ts[0].text, WrappingInc(start), ts[0].offsetFrom, ts[0].offsetTo)] + Emitted(WrappingInc(start), ts[1..])
  {
  }

  lemma AppendAssoc<A>(done: seq<A>, x: A, rest: seq<A>, all: seq<A>)
    requires done + ([x] + rest) == all
    ensures (done + [x]) + rest == all
  {
    assert done + ([x] + rest) == (done + [x]) + rest;
  }

  /** The stream over the pending tokens of one text. */
  class UnicodeTokenStream {
    var pending: seq<T.PendingToken>
    const token: Token

    constructor (pending: seq<T.PendingToken>, token: Token)
      ensures this.pending == pending && this.token == token
    {
      this.pending := pending;
      this.token := token;
    }

    /** `advance`: the front pending token is popped into `token`, one position
        further on; with nothing pending, nothing changes. */
    method Advance() returns (advanced: bool)
      modifies this, token
      ensures advanced <==> old(pending) != []
      ensures advanced ==> pending == old(pending)[1..]
      ensures advanced ==> token.text == old(pending)[0].text
      ensures advanced ==> token.position == WrappingInc(old(token.position))
      ensures advanced ==> token.offsetFrom == old(pending)[0].offsetFrom && token.offsetTo == old(pending)[0].offsetTo
      ensures advanced ==> token.positionLength == old(token.positionLength)
      ensures !advanced ==> pending == old(pending) && unchanged(token)
    {
      if pending != [] {
        var next := pending[0];
        pending := pending[1..];
        token.text := [];
        token.position := WrappingInc(token.position);
        token.offsetFrom := next.offsetFrom;
        token.offsetTo := next.offsetTo;
        token.text := token.text + next.text;
        return true;
      }
      return false;
    }

    /** Advances until the stream is exhausted and records every token handed out
        (what the indexer, or the tests' collecting sink, sees). */
    method Collect() returns (emitted: seq<Snapshot>)
      modifies this, token
      ensures emitted == Emitted(old(token.position), old(pending))
      ensures pending == []
      ensures token.position == if emitted == [] then old(token.position) else emitted[|emitted| - 1].position
    {
      emitted := [];
      ghost var all := Emitted(token.position, pending);
      while true
        invariant emitted + Emitted(token.position, pending) == all
        invariant token.position == if emitted == [] then old(token.position) else emitted[|emitted| - 1].position
        decreases |pending|
      {
        ghost var before, p := pending, token.position;
        var advanced := Advance();
        if !advanced {
          assert emitted + [] == emitted;
          break;
        }
        EmittedUnfold(p, before);
        AppendAssoc(emitted, token.Snap(), Emitted(token.position, pending), all);
        emitted := emitted + [token.Snap()];
      }
    }
  }

  /** The tokenizer object: it owns the `Token` that every stream it opens writes into. */
  class UnicodeTokenizer {
    const token: Token

    constructor Default()
      ensures fresh(token) && token.position == USIZE_MAX && token.text == []
    {
      token := new Token.Default();
    }

    /** `token_stream` as written: the stream reuses the tokenizer's token as it
        is, so its position goes on from where the previous stream left it. */
    method TokenStream(isAlnum: T.CharClass, text: string, words: seq<T.Word>) returns (s: UnicodeTokenStream)
      ensures fresh(s) && s.token == token && s.pending == T.Tokenize(isAlnum, text, words)
    {
      var pending := T.TokenizeText(isAlnum, text, words);
      s := new UnicodeTokenStream(pending, token);
    }

    /** `token_stream` with the reset the engine's own tokenizers perform: the
        token is set back to its default before the stream starts. */
    method TokenStreamReset(isAlnum: T.CharClass, text: string, words: seq<T.Word>) returns (s: UnicodeTokenStream)
      modifies token
      ensures fresh(s) && s.token == token && s.pending == T.Tokenize(isAlnum, text, words)
      ensures token.position == USIZE_MAX && token.text == [] && token.offsetFrom == 0 && token.offsetTo == 0
      ensures token.positionLength == 1
    {
      token.text, token.position, token.offsetFrom, token.offsetTo, token.positionLength := [], USIZE_MAX, 0, 0, 1;
      var pending := T.TokenizeText(isAlnum, text, words);
      s := new UnicodeTokenStream(pending, token);
    }
  }

  /** One tokenizer, two texts of one token each, as written: the second text's
      token comes out at position 1 instead of 0. */
  method ReusedTokenizerAsWritten(isAlnum: T.CharClass) returns (first: seq<Snapshot>, second: seq<Snapshot>)
    requires isAlnum('a') && isAlnum('b')
    ensures |first| == 1 && first[0].position == 0
    ensures |second| == 1 && second[0].position == 1
  {
    var tokenizer := new UnicodeTokenizer.Default();
    var s1 := tokenizer.TokenStream(isAlnum, "a", [T.Word(0, "a")]);
    T.OneLetterTokens(isAlnum, 'a');
    first := s1.Collect();
    EmittedFromDefault(T.Tokenize(isAlnum, "a", [T.Word(0, "a")]), 0);
    var s2 := tokenizer.TokenStream(isAlnum, "b", [T.Word(0, "b")]);
    T.OneLetterTokens(isAlnum, 'b');
    second := s2.Collect();
    EmittedAt(0, T.Tokenize(isAlnum, "b", [T.Word(0, "b")]), 0);
  }

  /** The same two texts with the reset: every stream numbers its tokens from 0. */
  method ReusedTokenizerReset(isAlnum: T.CharClass, text1: string, words1: seq<T.Word>,
                              text2: string, words2: seq<T.Word>)
    returns (first: seq<Snapshot>, second: seq<Snapshot>)
    ensures |first| == |T.Tokenize(isAlnum, text1, words1)| && |second| == |T.Tokenize(isAlnum, text2, words2)|
    ensures forall k :: 0 <= k < |first| && k < USIZE_MODULUS ==> first[k].position as int == k
    ensures forall k :: 0 <= k < |second| && k < USIZE_MODULUS ==> second[k].position as int == k
  {
    var tokenizer := new UnicodeTokenizer.Default();
    var s1 := tokenizer.TokenStreamReset(isAlnum, text1, words1);
    first := s1.Collect();
    forall k | 0 <= k < |first| && k < USIZE_MODULUS
      ensures first[k].position as int == k
    {
      EmittedFromDefault(T.Tokenize(isAlnum, text1, words1), k);
    }
    var s2 := tokenizer.TokenStreamReset(isAlnum, text2, words2);
    second := s2.Collect();
    forall k | 0 <= k < |second| && k < USIZE_MODULUS
      ensures second[k].position as int == k
    {
      EmittedFromDefault(T.Tokenize(isAlnum, text2, words2), k);
    }
  }
}
