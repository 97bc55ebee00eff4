/** The custom word tokenizer registered under the name "unicode".

    Its input is the list of `(byte offset, word)` pairs that Unicode word
    segmentation (Unicode Standard Annex #29, section 4.1) produces for a text;
    that segmentation is not part of this model and is taken as an input.
    Each word is split into alphanumeric runs, tokens separated only by
    apostrophe-like characters are merged, and after every run of tokens joined
    by dash-like characters one extra compound token is emitted.

    Characters are Unicode scalar values; offsets are byte offsets into the
    UTF-8 encoding of the text, as in the source. Rust's `char::is_alphanumeric`
    is kept abstract: every operation takes the classifier `isAlnum` as a
    parameter. */
module UnicodeTokenizer {
  import opened Wrappers

  /** Stands for `char::is_alphanumeric`, whose Unicode tables are not modelled. */
  type CharClass = char -> bool

  // ---------------------------------------------------------------------------
  // Character classes and separators
  // ---------------------------------------------------------------------------

  /** The ten apostrophe-like code points. */
  predicate IsApostropheLike(ch: char) {
    || ch == '\''
    || ch == '\U{2019}'  // RIGHT SINGLE QUOTATION MARK
    || ch == '\U{2018}'  // LEFT SINGLE QUOTATION MARK
    || ch == '\U{201B}'  // SINGLE HIGH-REVERSED-9 QUOTATION MARK
    || ch == '\U{02BC}'  // MODIFIER LETTER APOSTROPHE
    || ch == '\U{FF07}'  // FULLWIDTH APOSTROPHE
    || ch == '\U{0060}'  // GRAVE ACCENT
    || ch == '\U{00B4}'  // ACUTE ACCENT
    || ch == '\U{02B9}'  // MODIFIER LETTER PRIME
    || ch == '\U{2032}'  // PRIME
  }

  /** The ten dash-like code points. */
  predicate IsDashLike(ch: char) {
    || ch == '-'
    || ch == '\U{2010}'  // HYPHEN
    || ch == '\U{2011}'  // NON-BREAKING HYPHEN
    || ch == '\U{2012}'  // FIGURE DASH
    || ch == '\U{2013}'  // EN DASH
    || ch == '\U{2014}'  // EM DASH
    || ch == '\U{2015}'  // HORIZONTAL BAR
    || ch == '\U{2212}'  // MINUS SIGN
    || ch == '\U{FE63}'  // SMALL HYPHEN-MINUS
    || ch == '\U{FF0D}'  // FULLWIDTH HYPHEN-MINUS
  }

  /** `s.chars().all(p)`: scans left to right and stops at the first failure. */
  function AllChars(s: string, p: char -> bool): (r: bool)
    ensures r <==> forall i :: 0 <= i < |s| ==> p(s[i])
  {
    if s == [] then true
    else if !p(s[0]) then false
    else AllChars(s[1..], p)
  }

  function SeparatorIsApostropheRun(separator: string): (r: bool)
    ensures r <==> |separator| > 0 && forall i :: 0 <= i < |separator| ==> IsApostropheLike(separator[i])
  {
    separator != [] && AllChars(separator, IsApostropheLike)
  }

  function SeparatorIsDashRun(separator: string): (r: bool)
    ensures r <==> |separator| > 0 && forall i :: 0 <= i < |separator| ==> IsDashLike(separator[i])
  {
    separator != [] && AllChars(separator, IsDashLike)
  }

  /** The two character sets are disjoint, so no separator is both an apostrophe
      run and a dash run: the merge step and the compound step never compete. */
  lemma {:induction false} SeparatorKindsExclusive(separator: string)
    ensures !(SeparatorIsApostropheRun(separator) && SeparatorIsDashRun(separator))
  {
    if SeparatorIsApostropheRun(separator) {
      assert IsApostropheLike(separator[0]);
      assert !IsDashLike(separator[0]);
    }
  }

  // ---------------------------------------------------------------------------
  // UTF-8 byte offsets
  // ---------------------------------------------------------------------------

  /** Number of bytes of the UTF-8 encoding of one character. */
  function Utf8Width(ch: char): (n: nat)
    ensures 1 <= n <= 4
    ensures n == 1 <==> (ch as int) < 0x80
  {
    if (ch as int) < 0x80 then 1
    else if (ch as int) < 0x800 then 2
    else if (ch as int) < 0x1_0000 then 3
    else 4
  }

  /** `str::len`: the length in bytes of the UTF-8 encoding of `s`. */
  function ByteLen(s: string): nat
  {
    if s == [] then 0 else Utf8Width(s[0]) + ByteLen(s[1..])
  }

  lemma {:induction false} ByteLenAppend(a: string, b: string)
    ensures ByteLen(a + b) == ByteLen(a) + ByteLen(b)
  {
    if a == [] {
      assert a + b == b;
    } else {
      assert (a + b)[1..] == a[1..] + b;
      ByteLenAppend(a[1..], b);
    }
  }

  /** The byte offset of the character at index `i` (what `char_indices` pairs it with). */
  function ByteAt(s: string, i: nat): nat
    requires i <= |s|
  {
    ByteLen(s[..i])
  }

  lemma ByteAtStep(s: string, i: nat)
    requires i < |s|
    ensures ByteAt(s, i + 1) == ByteAt(s, i) + Utf8Width(s[i])
  {
    assert s[..i + 1] == s[..i] + [s[i]];
    ByteLenAppend(s[..i], [s[i]]);
  }

  lemma ByteAtEnd(s: string)
    ensures ByteAt(s, |s|) == ByteLen(s)
  {
    assert s[..|s|] == s;
  }

  /** Byte offsets grow strictly with the character index. */
  lemma {:induction false} ByteAtStrictlyIncreasing(s: string, i: nat, j: nat)
    requires i < j <= |s|
    ensures ByteAt(s, i) < ByteAt(s, j)
  {
    ByteAtStep(s, j - 1);
    if i < j - 1 {
      ByteAtStrictlyIncreasing(s, i, j - 1);
    }
  }

  lemma ByteAtMonotone(s: string, i: nat, j: nat)
    requires i <= j <= |s|
    ensures ByteAt(s, i) <= ByteAt(s, j)
  {
    if i < j {
      ByteAtStrictlyIncreasing(s, i, j);
    }
  }

  /** `word.char_indices().collect()`: each character with its byte offset. */
  function CharIndices(word: string): (r: seq<(nat, char)>)
    ensures |r| == |word|
    ensures forall i :: 0 <= i < |word| ==> r[i] == (ByteAt(word, i), word[i])
  {
    seq(|word|, i requires 0 <= i < |word| => (ByteAt(word, i), word[i]))
  }

  /** `&text[from..to]` on byte offsets: the characters whose encoding starts at
      a byte offset in `[from, to)`. On character boundaries this is exactly the
      slice (lemma SliceOnBoundaries). */
  function CharsInByteRange(text: string, from: nat, to: nat): string
  {
    SliceFrom(text, 0, from, to)
  }

  /** The characters of `s`, whose first byte sits at offset `pos`, that start in `[from, to)`. */
  function SliceFrom(s: string, pos: nat, from: nat, to: nat): string
  {
    if s == [] then []
    else (if from <= pos < to then [s[0]] else []) + SliceFrom(s[1..], pos + Utf8Width(s[0]), from, to)
  }

  lemma {:induction false} SliceFromAppend(a: string, b: string, pos: nat, from: nat, to: nat)
    ensures SliceFrom(a + b, pos, from, to) == SliceFrom(a, pos, from, to) + SliceFrom(b, pos + ByteLen(a), from, to)
  {
    if a == [] {
      assert a + b == b;
    } else {
      assert (a + b)[1..] == a[1..] + b;
      SliceFromAppend(a[1..], b, pos + Utf8Width(a[0]), from, to);
    }
  }

  lemma {:induction false} SliceFromOutside(s: string, pos: nat, from: nat, to: nat)
    requires pos + ByteLen(s) <= from || to <= pos
    ensures SliceFrom(s, pos, from, to) == []
  {
    if s != [] {
      SliceFromOutside(s[1..], pos + Utf8Width(s[0]), from, to);
    }
  }

  lemma {:induction false} SliceFromInside(s: string, pos: nat, from: nat, to: nat)
    requires from <= pos && pos + ByteLen(s) <= to
    ensures SliceFrom(s, pos, from, to) == s
  {
    if s != [] {
      SliceFromInside(s[1..], pos + Utf8Width(s[0]), from, to);
    }
  }

  /** Characters of a prefix that ends before `from` contribute nothing. */
  lemma SliceSkipsPrefix(prefix: string, rest: string, from: nat, to: nat)
    requires ByteLen(prefix) <= from
    ensures SliceFrom(prefix + rest, 0, from, to) == SliceFrom(rest, ByteLen(prefix), from, to)
  {
    SliceFromAppend(prefix, rest, 0, from, to);
    SliceFromOutside(prefix, 0, from, to);
  }

  /** A piece that fills `[pos, to)` exactly, followed by anything. */
  lemma SliceTakesPiece(middle: string, suffix: string, pos: nat, to: nat)
    requires to == pos + ByteLen(middle)
    ensures SliceFrom(middle + suffix, pos, pos, to) == middle
  {
    SliceFromAppend(middle, suffix, pos, pos, to);
    SliceFromInside(middle, pos, pos, to);
    SliceFromOutside(suffix, to, pos, to);
  }

  /** Slicing by the byte offsets of a piece of the text gives back that piece. */
  lemma SliceOnBoundaries(prefix: string, middle: string, suffix: string)
    ensures CharsInByteRange(prefix + middle + suffix, ByteLen(prefix), ByteLen(prefix) + ByteLen(middle)) == middle
  {
    assert prefix + middle + suffix == prefix + (middle + suffix);
    SliceSkipsPrefix(prefix, middle + suffix, ByteLen(prefix), ByteLen(prefix) + ByteLen(middle));
    SliceTakesPiece(middle, suffix, ByteLen(prefix), ByteLen(prefix) + ByteLen(middle));
  }

  // ---------------------------------------------------------------------------
  // Splitting one word
  // ---------------------------------------------------------------------------

  datatype PendingToken = PendingToken(text: string, offsetFrom: nat, offsetTo: nat)

  predicate PrevIsAlnum(isAlnum: CharClass, word: string, i: nat)
    requires i < |word|
  {
    i > 0 && isAlnum(word[i - 1])
  }

  predicate NextIsAlnum(isAlnum: CharClass, word: string, i: nat)
    requires i < |word|
  {
    i + 1 < |word| && isAlnum(word[i + 1])
  }

  /** An apostrophe-like character with an alphanumeric character on both sides. */
  predicate IsInteriorApostrophe(isAlnum: CharClass, word: string, i: nat)
    requires i < |word|
  {
    IsApostropheLike(word[i]) && PrevIsAlnum(isAlnum, word, i) && NextIsAlnum(isAlnum, word, i)
  }

  /** A character that goes into the token text. */
  predicate IsKept(isAlnum: CharClass, word: string, i: nat)
    requires i < |word|
  {
    !IsInteriorApostrophe(isAlnum, word, i) && isAlnum(word[i])
  }

  /** A character that ends the current token: neither alphanumeric nor an interior apostrophe. */
  predicate IsSplitting(isAlnum: CharClass, word: string, i: nat)
    requires i < |word|
  {
    !IsInteriorApostrophe(isAlnum, word, i) && !isAlnum(word[i])
  }

  /** The end of the run of non-splitting characters that starts at `i`. */
  function RunEnd(isAlnum: CharClass, word: string, i: nat): (j: nat)
    requires i <= |word|
    ensures i <= j <= |word|
    ensures j < |word| ==> IsSplitting(isAlnum, word, j)
    ensures forall k :: i <= k < j ==> !IsSplitting(isAlnum, word, k)
    decreases |word| - i
  {
    if i == |word| || IsSplitting(isAlnum, word, i) then i else RunEnd(isAlnum, word, i + 1)
  }

  /** The kept characters of `word[a..b]`, in order. */
  function KeptIn(isAlnum: CharClass, word: string, a: nat, b: nat): string
    requires a <= b <= |word|
    decreases b - a
  {
    if a == b then []
    else (if IsKept(isAlnum, word, a) then [word[a]] else []) + KeptIn(isAlnum, word, a + 1, b)
  }

  lemma {:induction false} KeptInSplit(isAlnum: CharClass, word: string, a: nat, b: nat, c: nat)
    requires a <= b <= c <= |word|
    ensures KeptIn(isAlnum, word, a, c) == KeptIn(isAlnum, word, a, b) + KeptIn(isAlnum, word, b, c)
    decreases b - a
  {
    if a < b {
      KeptInSplit(isAlnum, word, a + 1, b, c);
    }
  }

  lemma KeptInSnoc(isAlnum: CharClass, word: string, a: nat, b: nat)
    requires a <= b < |word|
    ensures KeptIn(isAlnum, word, a, b + 1)
         == KeptIn(isAlnum, word, a, b) + (if IsKept(isAlnum, word, b) then [word[b]] else [])
  {
    KeptInSplit(isAlnum, word, a, b, b + 1);
  }

  /** The token made of the run `word[a..b]` of a word that starts at byte `wordOffset`. */
  function RunToken(isAlnum: CharClass, wordOffset: nat, word: string, a: nat, b: nat): PendingToken
    requires a <= b <= |word|
  {
    PendingToken(KeptIn(isAlnum, word, a, b), wordOffset + ByteAt(word, a), wordOffset + ByteAt(word, b))
  }

  /** Reference definition of the split: one token per maximal run of
      non-splitting characters, from the index `i` on. */
  function TokensFrom(isAlnum: CharClass, wordOffset: nat, word: string, i: nat): seq<PendingToken>
    requires i <= |word|
    decreases |word| - i
  {
    if i == |word| then []
    else if IsSplitting(isAlnum, word, i) then TokensFrom(isAlnum, wordOffset, word, i + 1)
    else
      var b := RunEnd(isAlnum, word, i);
      [RunToken(isAlnum, wordOffset, word, i, b)] + TokensFrom(isAlnum, wordOffset, word, b)
  }

  function WordTokens(isAlnum: CharClass, wordOffset: nat, word: string): seq<PendingToken>
  {
    TokensFrom(isAlnum, wordOffset, word, 0)
  }

  /** `flush_pending_token`: the mutable references become in- and out-parameters. */
  method FlushPendingToken(tokens: seq<PendingToken>, wordOffset: nat, currentText: string,
                           currentStart: Option<nat>, currentEnd: nat)
    returns (tokens': seq<PendingToken>, currentText': string, currentStart': Option<nat>, currentEnd': nat)
    ensures currentStart' == None && currentEnd' == 0
    ensures tokens' == tokens + if currentStart.Some? && currentText != []
                                then [PendingToken(currentText, wordOffset + currentStart.value, wordOffset + currentEnd)]
                                else []
    ensures forall k :: |tokens| <= k < |tokens'| ==> tokens'[k].text != []
    ensures currentText' == if |tokens'| > |tokens| then [] else currentText
    ensures (currentStart.Some? <==> currentText != []) ==> currentText' == []
  {
    tokens', currentText' := tokens, currentText;
    if currentStart.Some? {
      if currentText != [] {
        tokens' := tokens + [PendingToken(currentText, wordOffset + currentStart.value, wordOffset + currentEnd)];
        currentText' := [];
      }
    }
    currentStart', currentEnd' := None, 0;
  }

  lemma {:induction false} RunEndFrom(isAlnum: CharClass, word: string, a: nat, j: nat)
    requires a <= j <= |word|
    requires forall k :: a <= k < j ==> !IsSplitting(isAlnum, word, k)
    requires j == |word| || IsSplitting(isAlnum, word, j)
    ensures RunEnd(isAlnum, word, a) == j
    decreases j - a
  {
    if a < j {
      RunEndFrom(isAlnum, word, a + 1, j);
    }
  }

  /** What holds of the loop state of `split_word_tokens` before the character
      at index `idx`: either no token is open and the tokens so far followed by
      the reference tokens from `idx` on are all the reference tokens, or a token
      opened at the kept character `runStart` and its run reaches `idx`. */
  ghost predicate SplitInvariant(isAlnum: CharClass, wordOffset: nat, word: string, idx: nat,
                                 tokens: seq<PendingToken>, currentText: string,
                                 currentStart: Option<nat>, currentEnd: nat, runStart: nat)
    requires idx <= |word|
  {
    var all := WordTokens(isAlnum, wordOffset, word);
    if currentStart.None? then
      && currentText == []
      && (idx == 0 || IsSplitting(isAlnum, word, idx - 1))
      && tokens + TokensFrom(isAlnum, wordOffset, word, idx) == all
    else
      && runStart < idx
      && IsKept(isAlnum, word, runStart)
      && (forall k :: runStart <= k < idx ==> !IsSplitting(isAlnum, word, k))
      && currentStart.value == ByteAt(word, runStart)
      && currentEnd == ByteAt(word, idx)
      && currentText == KeptIn(isAlnum, word, runStart, idx)
      && var b := RunEnd(isAlnum, word, runStart);
         tokens + [RunToken(isAlnum, wordOffset, word, runStart, b)] + TokensFrom(isAlnum, wordOffset, word, b) == all
  }

  lemma SplitInvariantInit(isAlnum: CharClass, wordOffset: nat, word: string)
    ensures SplitInvariant(isAlnum, wordOffset, word, 0, [], [], None, 0, 0)
  {
  }

  /** An interior apostrophe only ever occurs inside an open token; it extends the span, not the text. */
  lemma SplitStepInterior(isAlnum: CharClass, wordOffset: nat, word: string, idx: nat,
                          tokens: seq<PendingToken>, currentText: string,
                          currentStart: Option<nat>, currentEnd: nat, runStart: nat)
    requires idx < |word| && IsInteriorApostrophe(isAlnum, word, idx)
    requires SplitInvariant(isAlnum, wordOffset, word, idx, tokens, currentText, currentStart, currentEnd, runStart)
    ensures currentStart.Some?
    ensures SplitInvariant(isAlnum, wordOffset, word, idx + 1, tokens, currentText, currentStart, ByteAt(word, idx + 1), runStart)
  {
    KeptInSnoc(isAlnum, word, runStart, idx);
  }

  /** A kept character opens a token if none is open, and is appended to its text. */
  lemma SplitStepAlnum(isAlnum: CharClass, wordOffset: nat, word: string, idx: nat,
                       tokens: seq<PendingToken>, currentText: string,
                       currentStart: Option<nat>, currentEnd: nat, runStart: nat)
    requires idx < |word| && !IsInteriorApostrophe(isAlnum, word, idx) && isAlnum(word[idx])
    requires SplitInvariant(isAlnum, wordOffset, word, idx, tokens, currentText, currentStart, currentEnd, runStart)
    ensures SplitInvariant(isAlnum, wordOffset, word, idx + 1, tokens, currentText + [word[idx]],
                           if currentStart.None? then Some(ByteAt(word, idx)) else currentStart,
                           ByteAt(word, idx + 1),
                           if currentStart.None? then idx else runStart)
  {
    var start := if currentStart.None? then idx else runStart;
    KeptInSnoc(isAlnum, word, start, idx);
    if currentStart.None? {
      assert KeptIn(isAlnum, word, idx, idx) == [];
    }
  }

  /** A splitting character closes the open token, whose run ends exactly there. */
  lemma SplitStepSplitting(isAlnum: CharClass, wordOffset: nat, word: string, idx: nat,
                           tokens: seq<PendingToken>, currentText: string,
                           currentStart: Option<nat>, currentEnd: nat, runStart: nat)
    requires idx < |word| && IsSplitting(isAlnum, word, idx)
    requires SplitInvariant(isAlnum, wordOffset, word, idx, tokens, currentText, currentStart, currentEnd, runStart)
    ensures currentStart.Some? <==> currentText != []
    ensures SplitInvariant(isAlnum, wordOffset, word, idx + 1,
                           tokens + if currentStart.Some? && currentText != []
                                    then [PendingToken(currentText, wordOffset + currentStart.value, wordOffset + currentEnd)]
                                    else [],
                           [], None, 0, runStart)
  {
    if currentStart.Some? {
      RunEndFrom(isAlnum, word, runStart, idx);
    } else {
      assert tokens + [] == tokens;
    }
  }

  /** At the end of the word the open token, if any, is the last reference token. */
  lemma SplitFinish(isAlnum: CharClass, wordOffset: nat, word: string,
                    tokens: seq<PendingToken>, currentText: string,
                    currentStart: Option<nat>, currentEnd: nat, runStart: nat)
    requires SplitInvariant(isAlnum, wordOffset, word, |word|, tokens, currentText, currentStart, currentEnd, runStart)
    ensures currentStart.Some? <==> currentText != []
    ensures WordTokens(isAlnum, wordOffset, word)
         == tokens + if currentStart.Some? && currentText != []
                     then [PendingToken(currentText, wordOffset + currentStart.value, wordOffset + currentEnd)]
                     else []
  {
    if currentStart.Some? {
      RunEndFrom(isAlnum, word, runStart, |word|);
    } else {
      assert tokens + [] == tokens;
    }
  }

  /** `split_word_tokens`, proved equal to the reference definition WordTokens. */
  method SplitWordTokens(isAlnum: CharClass, wordOffset: nat, word: string) returns (tokens: seq<PendingToken>)
    ensures tokens == WordTokens(isAlnum, wordOffset, word)
  {
    tokens := [];
    var chars := CharIndices(word);
    var currentText: string := [];
    var currentStart: Option<nat> := None;
    var currentEnd: nat := 0;
    ghost var runStart: nat := 0;
    SplitInvariantInit(isAlnum, wordOffset, word);

    for idx := 0 to |chars|
      invariant SplitInvariant(isAlnum, wordOffset, word, idx, tokens, currentText, currentStart, currentEnd, runStart)
    {
      var byteIdx, ch := chars[idx].0, chars[idx].1;
      var nextByteIdx := if idx + 1 < |chars| then chars[idx + 1].0 else ByteLen(word);
      ByteAtEnd(word);
      assert nextByteIdx == ByteAt(word, idx + 1);

      var prevIsAlnum := idx > 0 && isAlnum(chars[idx - 1].1);
      var nextIsAlnum := idx + 1 < |chars| && isAlnum(chars[idx + 1].1);

      if IsApostropheLike(ch) && prevIsAlnum && nextIsAlnum {
        // An apostrophe-like character inside a word is dropped, but the span goes on.
        SplitStepInterior(isAlnum, wordOffset, word, idx, tokens, currentText, currentStart, currentEnd, runStart);
        currentEnd := nextByteIdx;
      } else if isAlnum(ch) {
        SplitStepAlnum(isAlnum, wordOffset, word, idx, tokens, currentText, currentStart, currentEnd, runStart);
        if currentStart.None? {
          currentStart := Some(byteIdx);
          runStart := idx;
        }
        currentText := currentText + [ch];
        currentEnd := nextByteIdx;
      } else {
        // Any other character ends the current token.
        SplitStepSplitting(isAlnum, wordOffset, word, idx, tokens, currentText, currentStart, currentEnd, runStart);
        tokens, currentText, currentStart, currentEnd :=
          FlushPendingToken(tokens, wordOffset, currentText, currentStart, currentEnd);
      }
    }

    SplitFinish(isAlnum, wordOffset, word, tokens, currentText, currentStart, currentEnd, runStart);
    tokens, currentText, currentStart, currentEnd :=
      FlushPendingToken(tokens, wordOffset, currentText, currentStart, currentEnd);
  }

  // ---------------------------------------------------------------------------
  // What the split promises
  // ---------------------------------------------------------------------------

  /** The concatenated texts of a token list. */
  function Texts(ts: seq<PendingToken>): string
  {
    if ts == [] then [] else Texts(ts[..|ts| - 1]) + ts[|ts| - 1].text
  }

  lemma {:induction false} TextsAppend(a: seq<PendingToken>, b: seq<PendingToken>)
    ensures Texts(a + b) == Texts(a) + Texts(b)
    decreases |b|
  {
    if b == [] {
      assert a + b == a;
    } else {
      assert (a + b)[..|a + b| - 1] == a + b[..|b| - 1];
      TextsAppend(a, b[..|b| - 1]);
    }
  }

  /** The span of `t` covers the character at index `j` of the word that starts at `wordOffset`. */
  predicate Covers(t: PendingToken, wordOffset: nat, word: string, j: nat)
    requires j < |word|
  {
    t.offsetFrom <= wordOffset + ByteAt(word, j) && wordOffset + ByteAt(word, j + 1) <= t.offsetTo
  }

  /** An index where the reference split can start: the start or end of the word,
      a splitting character, or just after one. */
  predicate AtTokenBoundary(isAlnum: CharClass, word: string, i: nat)
    requires i <= |word|
  {
    || i == 0
    || i == |word|
    || IsSplitting(isAlnum, word, i)
    || (i > 0 && IsSplitting(isAlnum, word, i - 1))
  }

  /** A token boundary that is not a splitting character opens a run with a kept character. */
  lemma BoundaryIsKept(isAlnum: CharClass, word: string, i: nat)
    requires i < |word| && AtTokenBoundary(isAlnum, word, i) && !IsSplitting(isAlnum, word, i)
    ensures IsKept(isAlnum, word, i)
  {
  }

  /** Every token is non-empty and its span lies inside the byte range `[lo, hi]`. */
  predicate TokensWithin(r: seq<PendingToken>, lo: nat, hi: nat)
  {
    forall k :: 0 <= k < |r| ==> r[k].text != [] && lo <= r[k].offsetFrom < r[k].offsetTo <= hi
  }

  /** Token spans come in strictly increasing, non-overlapping order. */
  predicate SpansIncreasing(r: seq<PendingToken>)
  {
    forall k :: 0 <= k < |r| - 1 ==> r[k].offsetTo < r[k + 1].offsetFrom
  }

  /** The reference split at a kept character: the run's token, then the rest. */
  lemma TokensFromRun(isAlnum: CharClass, wordOffset: nat, word: string, i: nat)
    requires i < |word| && !IsSplitting(isAlnum, word, i)
    ensures TokensFrom(isAlnum, wordOffset, word, i)
         == [RunToken(isAlnum, wordOffset, word, i, RunEnd(isAlnum, word, i))]
            + TokensFrom(isAlnum, wordOffset, word, RunEnd(isAlnum, word, i))
  {
  }

  /** The first character of a run is kept, so the run's token is not empty. */
  lemma RunTokenNonEmpty(isAlnum: CharClass, word: string, i: nat)
    requires i < |word| && AtTokenBoundary(isAlnum, word, i) && !IsSplitting(isAlnum, word, i)
    ensures KeptIn(isAlnum, word, i, RunEnd(isAlnum, word, i)) != []
  {
    BoundaryIsKept(isAlnum, word, i);
    assert KeptIn(isAlnum, word, i, RunEnd(isAlnum, word, i))[0] == word[i];
  }

  lemma WithinCons(t: PendingToken, rest: seq<PendingToken>, lo: nat, mid: nat, hi: nat)
    requires t.text != [] && lo <= t.offsetFrom < t.offsetTo <= hi
    requires lo <= mid && TokensWithin(rest, mid, hi)
    ensures TokensWithin([t] + rest, lo, hi)
  {
    forall k | 0 <= k < |[t] + rest|
      ensures ([t] + rest)[k].text != [] && lo <= ([t] + rest)[k].offsetFrom < ([t] + rest)[k].offsetTo <= hi
    {
      if k > 0 {
        assert ([t] + rest)[k] == rest[k - 1];
      }
    }
  }

  lemma IncreasingCons(t: PendingToken, rest: seq<PendingToken>)
    requires SpansIncreasing(rest) && (|rest| > 0 ==> t.offsetTo < rest[0].offsetFrom)
    ensures SpansIncreasing([t] + rest)
  {
    forall k | 0 <= k < |[t] + rest| - 1
      ensures ([t] + rest)[k].offsetTo < ([t] + rest)[k + 1].offsetFrom
    {
      if k > 0 {
        assert ([t] + rest)[k] == rest[k - 1] && ([t] + rest)[k + 1] == rest[k];
      }
    }
  }

  /** No token is empty and each lies inside the part of the word from index `i` on. */
  lemma {:induction false} TokensFromWithin(isAlnum: CharClass, wordOffset: nat, word: string, i: nat)
    requires i <= |word| && AtTokenBoundary(isAlnum, word, i)
    ensures TokensWithin(TokensFrom(isAlnum, wordOffset, word, i), wordOffset + ByteAt(word, i), wordOffset + ByteLen(word))
    decreases |word| - i
  {
    ByteAtEnd(word);
    if i == |word| {
    } else if IsSplitting(isAlnum, word, i) {
      TokensFromWithin(isAlnum, wordOffset, word, i + 1);
      ByteAtStep(word, i);
    } else {
      TokensFromRun(isAlnum, wordOffset, word, i);
      RunTokenNonEmpty(isAlnum, word, i);
      ByteAtStrictlyIncreasing(word, i, RunEnd(isAlnum, word, i));
      ByteAtMonotone(word, RunEnd(isAlnum, word, i), |word|);
      TokensFromWithin(isAlnum, wordOffset, word, RunEnd(isAlnum, word, i));
      WithinCons(RunToken(isAlnum, wordOffset, word, i, RunEnd(isAlnum, word, i)),
                 TokensFrom(isAlnum, wordOffset, word, RunEnd(isAlnum, word, i)),
                 wordOffset + ByteAt(word, i), wordOffset + ByteAt(word, RunEnd(isAlnum, word, i)),
                 wordOffset + ByteLen(word));
    }
  }

  /** After a splitting character, the next token starts beyond it. */
  lemma TokensFromStartAfter(isAlnum: CharClass, wordOffset: nat, word: string, j: nat)
    requires j < |word| && IsSplitting(isAlnum, word, j)
    ensures |TokensFrom(isAlnum, wordOffset, word, j)| > 0 ==>
              wordOffset + ByteAt(word, j) < TokensFrom(isAlnum, wordOffset, word, j)[0].offsetFrom
  {
    assert TokensFrom(isAlnum, wordOffset, word, j) == TokensFrom(isAlnum, wordOffset, word, j + 1);
    TokensFromWithin(isAlnum, wordOffset, word, j + 1);
    ByteAtStep(word, j);
  }

  /** The tokens come in strictly increasing, non-overlapping order: a splitting
      character always separates two of them. */
  lemma {:induction false} TokensFromIncreasing(isAlnum: CharClass, wordOffset: nat, word: string, i: nat)
    requires i <= |word| && AtTokenBoundary(isAlnum, word, i)
    ensures SpansIncreasing(TokensFrom(isAlnum, wordOffset, word, i))
    decreases |word| - i
  {
    if i == |word| {
    } else if IsSplitting(isAlnum, word, i) {
      TokensFromIncreasing(isAlnum, wordOffset, word, i + 1);
    } else {
      TokensFromRun(isAlnum, wordOffset, word, i);
      TokensFromIncreasing(isAlnum, wordOffset, word, RunEnd(isAlnum, word, i));
      if RunEnd(isAlnum, word, i) < |word| {
        TokensFromStartAfter(isAlnum, wordOffset, word, RunEnd(isAlnum, word, i));
      }
      IncreasingCons(RunToken(isAlnum, wordOffset, word, i, RunEnd(isAlnum, word, i)),
                     TokensFrom(isAlnum, wordOffset, word, RunEnd(isAlnum, word, i)));
    }
  }

  lemma WordTokensWellFormed(isAlnum: CharClass, wordOffset: nat, word: string)
    ensures TokensWithin(WordTokens(isAlnum, wordOffset, word), wordOffset, wordOffset + ByteLen(word))
    ensures SpansIncreasing(WordTokens(isAlnum, wordOffset, word))
  {
    assert ByteAt(word, 0) == 0 by {
      assert word[..0] == [];
    }
    TokensFromWithin(isAlnum, wordOffset, word, 0);
    TokensFromIncreasing(isAlnum, wordOffset, word, 0);
  }

  /** The token texts, read in order, are exactly the kept characters of the word:
      splitting characters and interior apostrophes never reach a token text. */
  lemma {:induction false} TokensFromTexts(isAlnum: CharClass, wordOffset: nat, word: string, i: nat)
    requires i <= |word|
    ensures Texts(TokensFrom(isAlnum, wordOffset, word, i)) == KeptIn(isAlnum, word, i, |word|)
    decreases |word| - i
  {
    if i == |word| {
    } else if IsSplitting(isAlnum, word, i) {
      TokensFromTexts(isAlnum, wordOffset, word, i + 1);
    } else {
      var b := RunEnd(isAlnum, word, i);
      var tok := RunToken(isAlnum, wordOffset, word, i, b);
      TokensFromTexts(isAlnum, wordOffset, word, b);
      TextsAppend([tok], TokensFrom(isAlnum, wordOffset, word, b));
      assert Texts([tok]) == tok.text by {
        assert [tok][..0] == [];
      }
      KeptInSplit(isAlnum, word, i, b, |word|);
    }
  }

  lemma WordTokensTexts(isAlnum: CharClass, wordOffset: nat, word: string)
    ensures Texts(WordTokens(isAlnum, wordOffset, word)) == KeptIn(isAlnum, word, 0, |word|)
  {
    TokensFromTexts(isAlnum, wordOffset, word, 0);
  }

  /** Some token of `r` has a span that covers the character at index `j`. */
  predicate CoveredBy(r: seq<PendingToken>, wordOffset: nat, word: string, j: nat)
    requires j < |word|
  {
    exists k :: 0 <= k < |r| && Covers(r[k], wordOffset, word, j)
  }

  /** A character that starts before every token is covered by none. */
  lemma NotCoveredBefore(r: seq<PendingToken>, lo: nat, hi: nat, wordOffset: nat, word: string, j: nat)
    requires j < |word| && TokensWithin(r, lo, hi) && wordOffset + ByteAt(word, j) < lo
    ensures !CoveredBy(r, wordOffset, word, j)
  {
  }

  /** Covering by a list with one more token in front. */
  lemma CoveredByCons(t: PendingToken, rest: seq<PendingToken>, wordOffset: nat, word: string, j: nat)
    requires j < |word|
    ensures CoveredBy([t] + rest, wordOffset, word, j)
        <==> Covers(t, wordOffset, word, j) || CoveredBy(rest, wordOffset, word, j)
  {
    var r := [t] + rest;
    if CoveredBy(r, wordOffset, word, j) && !Covers(t, wordOffset, word, j) {
      var k :| 0 <= k < |r| && Covers(r[k], wordOffset, word, j);
      assert k > 0 && r[k] == rest[k - 1];
    }
    if CoveredBy(rest, wordOffset, word, j) {
      var k :| 0 <= k < |rest| && Covers(rest[k], wordOffset, word, j);
      assert r[k + 1] == rest[k];
    }
    if Covers(t, wordOffset, word, j) {
      assert r[0] == t;
    }
  }

  /** A character lies in the span of some token exactly when it is not a splitting character. */
  lemma {:induction false} TokensFromCoverage(isAlnum: CharClass, wordOffset: nat, word: string, i: nat, j: nat)
    requires i <= j < |word| && AtTokenBoundary(isAlnum, word, i)
    ensures CoveredBy(TokensFrom(isAlnum, wordOffset, word, i), wordOffset, word, j) <==> !IsSplitting(isAlnum, word, j)
    decreases |word| - i
  {
    var r := TokensFrom(isAlnum, wordOffset, word, i);
    ByteAtEnd(word);
    if IsSplitting(isAlnum, word, i) {
      if j == i {
        TokensFromWithin(isAlnum, wordOffset, word, i + 1);
        ByteAtStrictlyIncreasing(word, i, i + 1);
        NotCoveredBefore(r, wordOffset + ByteAt(word, i + 1), wordOffset + ByteLen(word), wordOffset, word, j);
      } else {
        TokensFromCoverage(isAlnum, wordOffset, word, i + 1, j);
      }
    } else {
      var b := RunEnd(isAlnum, word, i);
      var tok := RunToken(isAlnum, wordOffset, word, i, b);
      var rest := TokensFrom(isAlnum, wordOffset, word, b);
      assert r == [tok] + rest;
      CoveredByCons(tok, rest, wordOffset, word, j);
      if j < b {
        ByteAtMonotone(word, i, j);
        ByteAtMonotone(word, j + 1, b);
        assert Covers(tok, wordOffset, word, j);
      } else {
        ByteAtStrictlyIncreasing(word, b, j + 1);
        assert !Covers(tok, wordOffset, word, j);
        TokensFromCoverage(isAlnum, wordOffset, word, b, j);
      }
    }
  }

  lemma WordTokensCoverage(isAlnum: CharClass, wordOffset: nat, word: string, j: nat)
    requires j < |word|
    ensures CoveredBy(WordTokens(isAlnum, wordOffset, word), wordOffset, word, j) <==> !IsSplitting(isAlnum, word, j)
  {
    TokensFromCoverage(isAlnum, wordOffset, word, 0, j);
  }

  /** An apostrophe-like character between two alphanumerics is left out of the
      token text, yet a token's span runs over it. */
  lemma InteriorApostropheSpanned(isAlnum: CharClass, wordOffset: nat, word: string, j: nat)
    requires j < |word| && IsInteriorApostrophe(isAlnum, word, j)
    ensures !IsKept(isAlnum, word, j)
    ensures CoveredBy(WordTokens(isAlnum, wordOffset, word), wordOffset, word, j)
  {
    WordTokensCoverage(isAlnum, wordOffset, word, j);
  }

  lemma SplitExampleSams(isAlnum: CharClass)
    requires isAlnum('S') && isAlnum('a') && isAlnum('m') && isAlnum('s') && !isAlnum('\'')
    ensures WordTokens(isAlnum, 0, "Sam's") == [PendingToken("Sams", 0, 5)]
  {
    var w := "Sam's";
    assert IsInteriorApostrophe(isAlnum, w, 3);
    assert RunEnd(isAlnum, w, 5) == 5;
    assert RunEnd(isAlnum, w, 4) == 5;
    assert RunEnd(isAlnum, w, 3) == 5;
    assert RunEnd(isAlnum, w, 2) == 5;
    assert RunEnd(isAlnum, w, 1) == 5;
    assert RunEnd(isAlnum, w, 0) == 5;
    assert KeptIn(isAlnum, w, 4, 5) == "s";
    assert KeptIn(isAlnum, w, 3, 5) == "s";
    assert KeptIn(isAlnum, w, 2, 5) == "ms";
    assert KeptIn(isAlnum, w, 1, 5) == "ams";
    assert KeptIn(isAlnum, w, 0, 5) == "Sams";
    assert w[..5] == w;
    assert ByteLen(w[4..]) == 1;
    assert ByteLen(w[3..]) == 2;
    assert ByteLen(w[2..]) == 3;
    assert ByteLen(w[1..]) == 4;
    assert ByteAt(w, 0) == 0 by {
      assert w[..0] == [];
    }
    assert ByteAt(w, 5) == 5;
    assert TokensFrom(isAlnum, 0, w, 5) == [];
  }

  // ---------------------------------------------------------------------------
  // Dash compounds
  // ---------------------------------------------------------------------------

  /** The text between two tokens is a non-empty run of dash-like characters. */
  predicate DashJoined(text: string, a: PendingToken, b: PendingToken)
  {
    SeparatorIsDashRun(CharsInByteRange(text, a.offsetTo, b.offsetFrom))
  }

  /** Tokens `k` and `k + 1` of the list are dash-joined. */
  predicate JoinedAt(tokens: seq<PendingToken>, text: string, k: nat)
    requires k + 1 < |tokens|
  {
    DashJoined(text, tokens[k], tokens[k + 1])
  }

  /** The index of the last token of the dash-joined run that starts at `i`. */
  function DashRunEnd(tokens: seq<PendingToken>, text: string, i: nat): (e: nat)
    requires i < |tokens|
    ensures i <= e < |tokens|
    ensures forall k :: i <= k < e ==> JoinedAt(tokens, text, k)
    ensures e + 1 < |tokens| ==> !JoinedAt(tokens, text, e)
    decreases |tokens| - i
  {
    if i + 1 < |tokens| && JoinedAt(tokens, text, i) then DashRunEnd(tokens, text, i + 1) else i
  }

  lemma {:induction false} DashRunEndFrom(tokens: seq<PendingToken>, text: string, i: nat, e: nat)
    requires i <= e < |tokens|
    requires JoinedBetween(tokens, text, i, e)
    requires e + 1 == |tokens| || !JoinedAt(tokens, text, e)
    ensures DashRunEnd(tokens, text, i) == e
    decreases e - i
  {
    if i < e {
      DashRunEndFrom(tokens, text, i + 1, e);
    }
  }

  /** Every gap between the tokens at indices `i` to `e` is a dash run. */
  predicate JoinedBetween(tokens: seq<PendingToken>, text: string, i: nat, e: nat)
    requires e < |tokens|
  {
    forall k :: i <= k < e ==> JoinedAt(tokens, text, k)
  }

  lemma JoinedBetweenSnoc(tokens: seq<PendingToken>, text: string, i: nat, e: nat)
    requires i <= e && e + 1 < |tokens|
    requires JoinedBetween(tokens, text, i, e)
    requires SeparatorIsDashRun(CharsInByteRange(text, tokens[e].offsetTo, tokens[e + 1].offsetFrom))
    ensures JoinedBetween(tokens, text, i, e + 1)
  {
    assert JoinedAt(tokens, text, e);
  }

  /** The token added after a run: the concatenated texts, spanning the whole run. */
  function Compound(run: seq<PendingToken>): PendingToken
    requires run != []
  {
    PendingToken(Texts(run), run[0].offsetFrom, run[|run| - 1].offsetTo)
  }

  /** A run followed by its compound token when it holds at least two tokens. */
  function WithCompound(run: seq<PendingToken>): seq<PendingToken>
  {
    if |run| >= 2 then run + [Compound(run)] else run
  }

  /** The output from the token at index `i` on: each maximal dash-joined run,
      followed by its compound when it holds at least two tokens. */
  function ExpandFrom(tokens: seq<PendingToken>, text: string, i: nat): seq<PendingToken>
    requires i <= |tokens|
    decreases |tokens| - i
  {
    if i == |tokens| then []
    else
      var e := DashRunEnd(tokens, text, i);
      WithCompound(tokens[i..e + 1]) + ExpandFrom(tokens, text, e + 1)
  }

  /** What `expand_dash_compounds` computes. */
  function Expand(tokens: seq<PendingToken>, text: string): seq<PendingToken>
  {
    ExpandFrom(tokens, text, 0)
  }

  lemma TextsSnoc(ts: seq<PendingToken>, t: PendingToken)
    ensures Texts(ts + [t]) == Texts(ts) + t.text
  {
    assert (ts + [t])[..|ts|] == ts;
  }

  /** One more token joins the run: what the loop of `PushDashRun` has gathered grows by it. */
  lemma ExtendRun(tokens: seq<PendingToken>, idx: nat, runEnd: nat,
                  expanded: seq<PendingToken>, pushed: seq<PendingToken>, combinedText: string)
    requires idx <= runEnd && runEnd + 1 < |tokens|
    requires pushed == expanded + tokens[idx + 1..runEnd + 1]
    requires combinedText == Texts(tokens[idx..runEnd + 1])
    ensures pushed + [tokens[runEnd + 1]] == expanded + tokens[idx + 1..runEnd + 2]
    ensures combinedText + tokens[runEnd + 1].text == Texts(tokens[idx..runEnd + 2])
  {
    assert tokens[idx..runEnd + 2] == tokens[idx..runEnd + 1] + [tokens[runEnd + 1]];
    TextsSnoc(tokens[idx..runEnd + 1], tokens[runEnd + 1]);
    assert tokens[idx + 1..runEnd + 2] == tokens[idx + 1..runEnd + 1] + [tokens[runEnd + 1]];
  }

  lemma StartRun(tokens: seq<PendingToken>, idx: nat, expanded: seq<PendingToken>)
    requires idx < |tokens|
    ensures expanded == expanded + tokens[idx + 1..idx + 1]
    ensures tokens[idx].text == Texts(tokens[idx..idx + 1])
  {
    TextsSnoc([], tokens[idx]);
    assert [] + [tokens[idx]] == tokens[idx..idx + 1];
  }

  /** A run of two or more tokens is pushed token by token and then its compound. */
  lemma PushedRunWithCompound(before: seq<PendingToken>, tokens: seq<PendingToken>, idx: nat, runEnd: nat)
    requires idx < runEnd < |tokens|
    ensures before + [tokens[idx]] + tokens[idx + 1..runEnd + 1]
            + [PendingToken(Texts(tokens[idx..runEnd + 1]), tokens[idx].offsetFrom, tokens[runEnd].offsetTo)]
         == before + WithCompound(tokens[idx..runEnd + 1])
  {
    var run := tokens[idx..runEnd + 1];
    assert [tokens[idx]] + tokens[idx + 1..runEnd + 1] == run;
    assert run[0] == tokens[idx] && run[|run| - 1] == tokens[runEnd];
  }

  /** A run of one token is pushed as it is. */
  lemma PushedSingle(before: seq<PendingToken>, tokens: seq<PendingToken>, idx: nat)
    requires idx < |tokens|
    ensures before + [tokens[idx]] + tokens[idx + 1..idx + 1] == before + WithCompound(tokens[idx..idx + 1])
  {
    assert tokens[idx..idx + 1] == [tokens[idx]];
  }

  /** ExpandFrom at a token: its run with the compound, then the rest. */
  lemma ExpandFromUnfold(tokens: seq<PendingToken>, text: string, idx: nat)
    requires idx < |tokens|
    ensures ExpandFrom(tokens, text, idx)
         == WithCompound(tokens[idx..DashRunEnd(tokens, text, idx) + 1])
            + ExpandFrom(tokens, text, DashRunEnd(tokens, text, idx) + 1)
  {
  }

  /** A dash-joined run of two or more tokens starting at `i` comes out as
      the run itself, then one compound whose text is the run's texts joined
      and whose span runs from the run's first start to its last end, then the
      expansion of the tokens after the run. */
  lemma CompoundAfterRun(tokens: seq<PendingToken>, text: string, i: nat)
    requires i < |tokens| && DashRunEnd(tokens, text, i) > i
    ensures |ExpandFrom(tokens, text, i)| > DashRunEnd(tokens, text, i) - i + 1
    ensures ExpandFrom(tokens, text, i)[..DashRunEnd(tokens, text, i) - i + 1]
         == tokens[i..DashRunEnd(tokens, text, i) + 1]
    ensures ExpandFrom(tokens, text, i)[DashRunEnd(tokens, text, i) - i + 1]
         == PendingToken(Texts(tokens[i..DashRunEnd(tokens, text, i) + 1]),
                         tokens[i].offsetFrom, tokens[DashRunEnd(tokens, text, i)].offsetTo)
    ensures ExpandFrom(tokens, text, i)[DashRunEnd(tokens, text, i) - i + 2..]
         == ExpandFrom(tokens, text, DashRunEnd(tokens, text, i) + 1)
  {
    ExpandFromUnfold(tokens, text, i);
    var run := tokens[i..DashRunEnd(tokens, text, i) + 1];
    assert WithCompound(run) == run + [Compound(run)];
  }

  /** The bookkeeping of one round of the outer loop, on plain sequences: if
      `before` followed by the rest of the output `w + rest` is everything, and
      `w` has now been pushed, then what is left to push is `rest`. */
  lemma PushedThenRest(before: seq<PendingToken>, w: seq<PendingToken>, rest: seq<PendingToken>,
                       all: seq<PendingToken>, remaining: seq<PendingToken>, pushed: seq<PendingToken>)
    requires remaining == w + rest && before + remaining == all
    requires pushed == before + w
    ensures pushed + rest == all
  {
    assert before + (w + rest) == (before + w) + rest;
  }

  /** The inner loop of `expand_dash_compounds`: starting from the token at
      `idx`, which has just been pushed, push every following token joined to the
      run by a dash separator, and return where the run ends together with the
      compound's text and end offset. */
  method PushDashRun(tokens: seq<PendingToken>, text: string, idx: nat, expanded: seq<PendingToken>)
    returns (expanded': seq<PendingToken>, runEnd: nat, combinedText: string, combinedEnd: nat, hasDashBridge: bool)
    requires idx < |tokens|
    ensures runEnd == DashRunEnd(tokens, text, idx)
    ensures expanded' == expanded + tokens[idx + 1..runEnd + 1]
    ensures combinedText == Texts(tokens[idx..runEnd + 1])
    ensures combinedEnd == tokens[runEnd].offsetTo
    ensures hasDashBridge <==> runEnd > idx
  {
    expanded' := expanded;
    runEnd := idx;
    combinedText := tokens[idx].text;
    combinedEnd := tokens[idx].offsetTo;
    hasDashBridge := false;
    StartRun(tokens, idx, expanded);

    while runEnd + 1 < |tokens|
      invariant idx <= runEnd < |tokens|
      invariant JoinedBetween(tokens, text, idx, runEnd)
      invariant expanded' == expanded + tokens[idx + 1..runEnd + 1]
      invariant combinedText == Texts(tokens[idx..runEnd + 1])
      invariant combinedEnd == tokens[runEnd].offsetTo
      invariant hasDashBridge <==> runEnd > idx
      decreases |tokens| - runEnd
    {
      var separator := CharsInByteRange(text, tokens[runEnd].offsetTo, tokens[runEnd + 1].offsetFrom);
      if SeparatorIsDashRun(separator) {
        JoinedBetweenSnoc(tokens, text, idx, runEnd);
        ExtendRun(tokens, idx, runEnd, expanded, expanded', combinedText);
        hasDashBridge := true;
        runEnd := runEnd + 1;
        combinedText := combinedText + tokens[runEnd].text;
        combinedEnd := tokens[runEnd].offsetTo;
        expanded' := expanded' + [tokens[runEnd]];
      } else {
        assert !JoinedAt(tokens, text, runEnd);
        break;
      }
    }
    DashRunEndFrom(tokens, text, idx, runEnd);
  }

  /** The body of the outer loop of `expand_dash_compounds`: push the token at
      `idx` and the rest of its dash-joined run, then the compound when the run
      has a dash in it. */
  method ExpandRunAt(tokens: seq<PendingToken>, text: string, idx: nat, expanded: seq<PendingToken>)
    returns (expanded': seq<PendingToken>, next: nat)
    requires idx < |tokens|
    ensures next == DashRunEnd(tokens, text, idx) + 1
    ensures expanded' == expanded + WithCompound(tokens[idx..next])
  {
    expanded' := expanded + [tokens[idx]];
    var combinedStart := tokens[idx].offsetFrom;
    var runEnd, combinedText, combinedEnd, hasDashBridge;
    expanded', runEnd, combinedText, combinedEnd, hasDashBridge := PushDashRun(tokens, text, idx, expanded');
    if hasDashBridge {
      expanded' := expanded' + [PendingToken(combinedText, combinedStart, combinedEnd)];
      PushedRunWithCompound(expanded, tokens, idx, runEnd);
      next := runEnd + 1;
    } else {
      PushedSingle(expanded, tokens, idx);
      next := idx + 1;
    }
  }

  /** `expand_dash_compounds`, proved equal to Expand. */
  method ExpandDashCompounds(tokens: seq<PendingToken>, text: string) returns (expanded: seq<PendingToken>)
    ensures expanded == Expand(tokens, text)
  {
    if tokens == [] {
      return tokens;
    }
    expanded := [];
    var idx := 0;
    while idx < |tokens|
      invariant idx <= |tokens|
      invariant expanded + ExpandFrom(tokens, text, idx) == Expand(tokens, text)
      decreases |tokens| - idx
    {
      ghost var before, start := expanded, idx;
      expanded, idx := ExpandRunAt(tokens, text, idx, expanded);
      ExpandFromUnfold(tokens, text, start);
      PushedThenRest(before, WithCompound(tokens[start..idx]), ExpandFrom(tokens, text, idx),
                     Expand(tokens, text), ExpandFrom(tokens, text, start), expanded);
    }
    assert expanded + [] == expanded;
  }

  // ---------------------------------------------------------------------------
  // What the dash expansion promises
  // ---------------------------------------------------------------------------

  /** The number of compounds added from index `i` on: one per run of at least two tokens. */
  function CompoundCount(tokens: seq<PendingToken>, text: string, i: nat): nat
    requires i <= |tokens|
    decreases |tokens| - i
  {
    if i == |tokens| then 0
    else
      var e := DashRunEnd(tokens, text, i);
      (if e > i then 1 else 0) + CompoundCount(tokens, text, e + 1)
  }

  /** The output holds the input tokens plus one compound per run with a dash. */
  lemma {:induction false} ExpandFromLength(tokens: seq<PendingToken>, text: string, i: nat)
    requires i <= |tokens|
    ensures |ExpandFrom(tokens, text, i)| == |tokens| - i + CompoundCount(tokens, text, i)
    decreases |tokens| - i
  {
    if i < |tokens| {
      ExpandFromLength(tokens, text, DashRunEnd(tokens, text, i) + 1);
    }
  }

  /** `pos` places every element of `src` in `out`, in order: `src` is a
      subsequence of `out` and `pos` says where. */
  ghost predicate Embeds<T>(pos: seq<nat>, src: seq<T>, out: seq<T>)
  {
    && |pos| == |src|
    && (forall k :: 0 <= k < |pos| ==> PlacedAt(pos, src, out, k))
    && (forall k, l :: 0 <= k < l < |pos| ==> pos[k] < pos[l])
  }

  /** Element `k` of `src` sits at `pos[k]` in `out`. */
  ghost predicate PlacedAt<T>(pos: seq<nat>, src: seq<T>, out: seq<T>, k: nat)
  {
    k < |pos| && k < |src| && pos[k] < |out| && out[pos[k]] == src[k]
  }

  function Upto(n: nat): (r: seq<nat>)
    ensures |r| == n && forall k :: 0 <= k < n ==> r[k] == k
  {
    if n == 0 then [] else Upto(n - 1) + [n - 1]
  }

  function Shifted(pos: seq<nat>, d: nat): (r: seq<nat>)
    ensures |r| == |pos| && forall k :: 0 <= k < |pos| ==> r[k] == pos[k] + d
  {
    if pos == [] then [] else [pos[0] + d] + Shifted(pos[1..], d)
  }

  lemma EmbedsAppend<T>(run: seq<T>, w: seq<T>, srcRest: seq<T>, rest: seq<T>, restPos: seq<nat>,
                        src: seq<T>, out: seq<T>) returns (all: seq<nat>)
    requires |run| <= |w| && w[..|run|] == run
    requires Embeds(restPos, srcRest, rest)
    requires src == run + srcRest && out == w + rest
    ensures Embeds(all, src, out)
  {
    all := Upto(|run|) + Shifted(restPos, |w|);
    forall k | 0 <= k < |all|
      ensures PlacedAt(all, src, out, k)
    {
      if k < |run| {
        assert w[k] == w[..|run|][k];
      } else {
        assert PlacedAt(restPos, srcRest, rest, k - |run|);
      }
    }
  }

  lemma SuffixSplit<T>(s: seq<T>, i: nat, j: nat)
    requires i <= j <= |s|
    ensures s[i..] == s[i..j] + s[j..]
  {
  }

  lemma WithCompoundPrefix(run: seq<PendingToken>)
    ensures |run| <= |WithCompound(run)| && WithCompound(run)[..|run|] == run
  {
  }

  /** One run's step of `ExpandFromKeepsTokens`: the run's tokens open the
      output, so an embedding of the rest extends to one from `i`. */
  lemma KeepsTokensStep(tokens: seq<PendingToken>, text: string, i: nat, restPos: seq<nat>)
    returns (pos: seq<nat>)
    requires i < |tokens|
    requires Embeds(restPos, tokens[DashRunEnd(tokens, text, i) + 1..],
                    ExpandFrom(tokens, text, DashRunEnd(tokens, text, i) + 1))
    ensures Embeds(pos, tokens[i..], ExpandFrom(tokens, text, i))
  {
    ExpandFromUnfold(tokens, text, i);
    WithCompoundPrefix(tokens[i..DashRunEnd(tokens, text, i) + 1]);
    SuffixSplit(tokens, i, DashRunEnd(tokens, text, i) + 1);
    pos := EmbedsAppend(tokens[i..DashRunEnd(tokens, text, i) + 1],
                        WithCompound(tokens[i..DashRunEnd(tokens, text, i) + 1]),
                        tokens[DashRunEnd(tokens, text, i) + 1..],
                        ExpandFrom(tokens, text, DashRunEnd(tokens, text, i) + 1), restPos,
                        tokens[i..], ExpandFrom(tokens, text, i));
  }

  /** Every input token appears in the output, in the input order: `pos[k]` is
      where token `i + k` sits in the output. */
  lemma {:induction false} ExpandFromKeepsTokens(tokens: seq<PendingToken>, text: string, i: nat)
    returns (pos: seq<nat>)
    requires i <= |tokens|
    ensures Embeds(pos, tokens[i..], ExpandFrom(tokens, text, i))
    decreases |tokens| - i
  {
    if i == |tokens| {
      pos := [];
    } else {
      var restPos := ExpandFromKeepsTokens(tokens, text, DashRunEnd(tokens, text, i) + 1);
      pos := KeepsTokensStep(tokens, text, i, restPos);
    }
  }

  lemma ExpandKeepsTokens(tokens: seq<PendingToken>, text: string) returns (pos: seq<nat>)
    ensures Embeds(pos, tokens, Expand(tokens, text))
  {
    pos := ExpandFromKeepsTokens(tokens, text, 0);
    assert tokens[0..] == tokens;
  }

  /** With no dash separator anywhere, the expansion changes nothing. */
  lemma {:induction false} ExpandFromNoDash(tokens: seq<PendingToken>, text: string, i: nat)
    requires i <= |tokens|
    requires forall k :: i <= k < |tokens| - 1 ==> !JoinedAt(tokens, text, k)
    ensures ExpandFrom(tokens, text, i) == tokens[i..]
    decreases |tokens| - i
  {
    if i < |tokens| {
      assert DashRunEnd(tokens, text, i) == i;
      ExpandFromUnfold(tokens, text, i);
      ExpandFromNoDash(tokens, text, i + 1);
      SuffixSplit(tokens, i, i + 1);
    }
  }

  lemma ExpandNoDash(tokens: seq<PendingToken>, text: string)
    requires forall k :: 0 <= k < |tokens| - 1 ==> !DashJoined(text, tokens[k], tokens[k + 1])
    ensures Expand(tokens, text) == tokens
  {
    ExpandFromNoDash(tokens, text, 0);
    assert tokens[0..] == tokens;
  }

  /** "co-op": the two halves, then the compound spanning the whole word. */
  lemma ExpandExampleCoop()
    ensures Expand([PendingToken("co", 0, 2), PendingToken("op", 3, 5)], "co-op")
         == [PendingToken("co", 0, 2), PendingToken("op", 3, 5), PendingToken("coop", 0, 5)]
  {
    var tokens := [PendingToken("co", 0, 2), PendingToken("op", 3, 5)];
    assert CharsInByteRange("co-op", 2, 3) == "-";
    assert JoinedAt(tokens, "co-op", 0);
    assert DashRunEnd(tokens, "co-op", 0) == 1;
    assert tokens[0..2] == tokens;
    assert Texts(tokens) == "coop" by {
      assert tokens[..1] == [PendingToken("co", 0, 2)];
      assert [PendingToken("co", 0, 2)][..0] == [];
    }
  }

  /** "foo/bar": a slash is not a dash, so no compound. */
  /** The UTF-8 length of an ASCII string is its length. */
  lemma {:induction false} ByteLenAscii(s: string)
    requires forall i :: 0 <= i < |s| ==> (s[i] as int) < 0x80
    ensures ByteLen(s) == |s|
  {
    if s != [] {
      ByteLenAscii(s[1..]);
    }
  }

  /** Two tokens on either side of a single dash right after `prefix` are dash-joined. */
  lemma DashJoinedAfter(prefix: string, suffix: string, a: PendingToken, b: PendingToken)
    requires a.offsetTo == ByteLen(prefix) && b.offsetFrom == a.offsetTo + 1
    ensures DashJoined(prefix + "-" + suffix, a, b)
  {
    SliceOnBoundaries(prefix, "-", suffix);
    assert SeparatorIsDashRun("-");
  }

  /** The dashes of "state-of-the-art" join each of its words to the next. */
  lemma StateOfTheArtJoined(tokens: seq<PendingToken>, text: string)
    requires text == "state" + "-" + "of" + "-" + "the" + "-" + "art"
    requires tokens == [PendingToken("state", 0, 5), PendingToken("of", 6, 8), PendingToken("the", 9, 12),
                        PendingToken("art", 13, 16)]
    ensures JoinedAt(tokens, text, 0) && JoinedAt(tokens, text, 1) && JoinedAt(tokens, text, 2)
  {
    assert JoinedAt(tokens, text, 0) by {
      ByteLenAscii("state");
      assert text == "state" + "-" + ("of" + "-" + "the" + "-" + "art");
      DashJoinedAfter("state", "of" + "-" + "the" + "-" + "art", tokens[0], tokens[1]);
    }
    assert JoinedAt(tokens, text, 1) by {
      ByteLenAscii("state" + "-" + "of");
      assert text == ("state" + "-" + "of") + "-" + ("the" + "-" + "art");
      DashJoinedAfter("state" + "-" + "of", "the" + "-" + "art", tokens[1], tokens[2]);
    }
    assert JoinedAt(tokens, text, 2) by {
      ByteLenAscii("state" + "-" + "of" + "-" + "the");
      DashJoinedAfter("state" + "-" + "of" + "-" + "the", "art", tokens[2], tokens[3]);
    }
  }

  /** The test at src/unicode_tokenizer.rs:335-341: a run of four dash-joined
      tokens gives one compound, after the last of them. */
  lemma ExpandExampleStateOfTheArt()
    ensures Expand([PendingToken("state", 0, 5), PendingToken("of", 6, 8), PendingToken("the", 9, 12),
                    PendingToken("art", 13, 16)], "state" + "-" + "of" + "-" + "the" + "-" + "art")
         == [PendingToken("state", 0, 5), PendingToken("of", 6, 8), PendingToken("the", 9, 12),
             PendingToken("art", 13, 16), PendingToken("stateoftheart", 0, 16)]
  {
    var tokens := [PendingToken("state", 0, 5), PendingToken("of", 6, 8), PendingToken("the", 9, 12),
                   PendingToken("art", 13, 16)];
    var text := "state" + "-" + "of" + "-" + "the" + "-" + "art";
    StateOfTheArtJoined(tokens, text);
    assert DashRunEnd(tokens, text, 0) == 3 by {
      assert DashRunEnd(tokens, text, 2) == 3;
      assert DashRunEnd(tokens, text, 1) == 3;
    }
    ExpandFromUnfold(tokens, text, 0);
    assert tokens[0..4] == tokens;
    assert Texts(tokens) == "stateoftheart" by {
      TextsSnoc([], tokens[0]);
      TextsSnoc(tokens[..1], tokens[1]);
      TextsSnoc(tokens[..2], tokens[2]);
      TextsSnoc(tokens[..3], tokens[3]);
      assert [] + [tokens[0]] == tokens[..1] && tokens[..1] + [tokens[1]] == tokens[..2];
      assert tokens[..2] + [tokens[2]] == tokens[..3] && tokens[..3] + [tokens[3]] == tokens;
    }
  }

  /** From the test at src/unicode_tokenizer.rs:324-333: an em dash, three
      bytes wide, joins "baz" and "qux" into "bazqux". */
  lemma ExpandExampleEmDash()
    ensures Expand([PendingToken("baz", 0, 3), PendingToken("qux", 6, 9)], "baz\U{2014}qux")
         == [PendingToken("baz", 0, 3), PendingToken("qux", 6, 9), PendingToken("bazqux", 0, 9)]
  {
    var tokens := [PendingToken("baz", 0, 3), PendingToken("qux", 6, 9)];
    var text := "baz\U{2014}qux";
    assert text == "baz" + "\U{2014}" + "qux";
    SliceOnBoundaries("baz", "\U{2014}", "qux");
    assert JoinedAt(tokens, text, 0);
    assert DashRunEnd(tokens, text, 0) == 1;
    assert tokens[0..2] == tokens;
    assert Texts(tokens) == "bazqux" by {
      assert tokens[..1][..0] == [];
    }
  }

  lemma ExpandExampleSlash()
    ensures Expand([PendingToken("foo", 0, 3), PendingToken("bar", 4, 7)], "foo/bar")
         == [PendingToken("foo", 0, 3), PendingToken("bar", 4, 7)]
  {
    var tokens := [PendingToken("foo", 0, 3), PendingToken("bar", 4, 7)];
    assert "foo/bar" == "foo" + "/" + "bar";
    SliceOnBoundaries("foo", "/", "bar");
    assert ByteLen("foo") == 3 && ByteLen("/") == 1;
    assert !IsDashLike('/');
    ExpandNoDash(tokens, "foo/bar");
  }

  // ---------------------------------------------------------------------------
  // Merging across apostrophes, and the whole pipeline
  // ---------------------------------------------------------------------------

  /** A word as the word segmentation hands it over: its byte offset in the text and its characters. */
  datatype Word = Word(offset: nat, chars: string)

  /** The token `t` starts at or after the end of `last`, and only apostrophe-like
      characters lie between them. */
  predicate ApostropheJoined(text: string, last: PendingToken, t: PendingToken)
  {
    t.offsetFrom >= last.offsetTo && SeparatorIsApostropheRun(CharsInByteRange(text, last.offsetTo, t.offsetFrom))
  }

  /** `last` followed by `t`, as one token. */
  function Joined(last: PendingToken, t: PendingToken): PendingToken
  {
    PendingToken(last.text + t.text, last.offsetFrom, t.offsetTo)
  }

  /** One step of the merge: `t` extends the last merged token when an apostrophe
      run is all that separates them, and is appended otherwise. */
  function MergeStep(text: string, merged: seq<PendingToken>, t: PendingToken): seq<PendingToken>
  {
    if merged != [] && ApostropheJoined(text, merged[|merged| - 1], t)
    then merged[|merged| - 1 := Joined(merged[|merged| - 1], t)]
    else merged + [t]
  }

  /** The merge of a whole token list (a fold of `MergeStep` from the left). */
  function Merged(text: string, ts: seq<PendingToken>): seq<PendingToken>
  {
    if ts == [] then [] else MergeStep(text, Merged(text, ts[..|ts| - 1]), ts[|ts| - 1])
  }

  /** The tokens of the words, word by word, each split by `split_word_tokens`. */
  function SplitAll(isAlnum: CharClass, words: seq<Word>): seq<PendingToken>
  {
    if words == [] then []
    else SplitAll(isAlnum, words[..|words| - 1]) + WordTokens(isAlnum, words[|words| - 1].offset, words[|words| - 1].chars)
  }

  /** What `tokenize_text` produces: split every word, merge across apostrophes, add the dash compounds. */
  function Tokenize(isAlnum: CharClass, text: string, words: seq<Word>): seq<PendingToken>
  {
    Expand(Merged(text, SplitAll(isAlnum, words)), text)
  }

  lemma MergedSnoc(text: string, ts: seq<PendingToken>, t: PendingToken)
    ensures Merged(text, ts + [t]) == MergeStep(text, Merged(text, ts), t)
  {
    assert (ts + [t])[..|ts|] == ts;
  }

  /** Merging one more token: when it follows the last merged token across an
      apostrophe run, that token takes on its text and its end, keeps its
      start, and nothing else changes; otherwise it is pushed unchanged. */
  lemma MergeJoinsOrPushes(text: string, ts: seq<PendingToken>, t: PendingToken)
    ensures Merged(text, ts) != [] && ApostropheJoined(text, Merged(text, ts)[|Merged(text, ts)| - 1], t) ==>
              |Merged(text, ts + [t])| == |Merged(text, ts)|
              && Merged(text, ts + [t])[..|Merged(text, ts)| - 1] == Merged(text, ts)[..|Merged(text, ts)| - 1]
              && Merged(text, ts + [t])[|Merged(text, ts)| - 1].text
                 == Merged(text, ts)[|Merged(text, ts)| - 1].text + t.text
              && Merged(text, ts + [t])[|Merged(text, ts)| - 1].offsetFrom
                 == Merged(text, ts)[|Merged(text, ts)| - 1].offsetFrom
              && Merged(text, ts + [t])[|Merged(text, ts)| - 1].offsetTo == t.offsetTo
    ensures !(Merged(text, ts) != [] && ApostropheJoined(text, Merged(text, ts)[|Merged(text, ts)| - 1], t)) ==>
              Merged(text, ts + [t]) == Merged(text, ts) + [t]
  {
    MergedSnoc(text, ts, t);
  }

  lemma SplitAllSnoc(isAlnum: CharClass, words: seq<Word>, i: nat)
    requires i < |words|
    ensures SplitAll(isAlnum, words[..i + 1]) == SplitAll(isAlnum, words[..i]) + WordTokens(isAlnum, words[i].offset, words[i].chars)
  {
    assert words[..i + 1][..i] == words[..i];
  }

  lemma PrefixSnoc<T>(prefix: seq<T>, s: seq<T>, j: nat)
    requires j < |s|
    ensures prefix + s[..j + 1] == (prefix + s[..j]) + [s[j]]
  {
    assert s[..j + 1] == s[..j] + [s[j]];
  }

  /** The merge loop over the tokens of one word: `merged` is updated in place. */
  method MergeWordTokens(text: string, merged: seq<PendingToken>, split: seq<PendingToken>,
                         ghost before: seq<PendingToken>)
    returns (merged': seq<PendingToken>)
    requires merged == Merged(text, before)
    ensures merged' == Merged(text, before + split)
  {
    merged' := merged;
    var j := 0;
    assert split[..0] == [];
    assert before + split[..0] == before;
    while j < |split|
      invariant j <= |split|
      invariant merged' == Merged(text, before + split[..j])
    {
      var t := split[j];
      MergedSnoc(text, before + split[..j], t);
      PrefixSnoc(before, split, j);
      j := j + 1;
      if merged' != [] && t.offsetFrom >= merged'[|merged'| - 1].offsetTo {
        var separator := CharsInByteRange(text, merged'[|merged'| - 1].offsetTo, t.offsetFrom);
        if SeparatorIsApostropheRun(separator) {
          var last := merged'[|merged'| - 1];
          merged' := merged'[|merged'| - 1 := PendingToken(last.text + t.text, last.offsetFrom, t.offsetTo)];
          continue;
        }
      }
      merged' := merged' + [t];
    }
    assert split[..|split|] == split;
  }

  /** `tokenize_text`: the words (the output of the word segmentation) are split,
      merged across apostrophes and expanded with dash compounds. */
  method TokenizeText(isAlnum: CharClass, text: string, words: seq<Word>) returns (pending: seq<PendingToken>)
    ensures pending == Tokenize(isAlnum, text, words)
  {
    var merged: seq<PendingToken> := [];
    var w := 0;
    while w < |words|
      invariant w <= |words|
      invariant merged == Merged(text, SplitAll(isAlnum, words[..w]))
    {
      var split := SplitWordTokens(isAlnum, words[w].offset, words[w].chars);
      SplitAllSnoc(isAlnum, words, w);
      merged := MergeWordTokens(text, merged, split, SplitAll(isAlnum, words[..w]));
      w := w + 1;
    }
    assert words[..|words|] == words;
    pending := ExpandDashCompounds(merged, text);
  }

  // ---------------------------------------------------------------------------
  // What the merge promises
  // ---------------------------------------------------------------------------

  lemma MergeStepTexts(text: string, merged: seq<PendingToken>, t: PendingToken)
    ensures Texts(MergeStep(text, merged, t)) == Texts(merged) + t.text
  {
    if merged != [] && ApostropheJoined(text, merged[|merged| - 1], t) {
      var n := |merged| - 1;
      assert merged[n := Joined(merged[n], t)] == merged[..n] + [Joined(merged[n], t)];
      TextsSnoc(merged[..n], Joined(merged[n], t));
      assert merged == merged[..n] + [merged[n]];
      TextsSnoc(merged[..n], merged[n]);
    } else {
      TextsSnoc(merged, t);
    }
  }

  /** Merging only glues neighbouring texts: read in order, the texts are unchanged. */
  lemma {:induction false} MergedTexts(text: string, ts: seq<PendingToken>)
    ensures Texts(Merged(text, ts)) == Texts(ts)
    decreases |ts|
  {
    if ts != [] {
      MergedTexts(text, ts[..|ts| - 1]);
      MergeStepTexts(text, Merged(text, ts[..|ts| - 1]), ts[|ts| - 1]);
      assert ts == ts[..|ts| - 1] + [ts[|ts| - 1]];
      TextsSnoc(ts[..|ts| - 1], ts[|ts| - 1]);
    }
  }

  /** Merging never adds tokens, and keeps at least one when there is one. */
  lemma {:induction false} MergedLength(text: string, ts: seq<PendingToken>)
    ensures |Merged(text, ts)| <= |ts|
    ensures ts != [] ==> Merged(text, ts) != []
    decreases |ts|
  {
    if ts != [] {
      MergedLength(text, ts[..|ts| - 1]);
    }
  }

  /** With no apostrophe run between neighbouring tokens, the merge changes nothing. */
  lemma {:induction false} MergedNoApostrophe(text: string, ts: seq<PendingToken>)
    requires forall k :: 0 <= k < |ts| - 1 ==> !ApostropheJoined(text, ts[k], ts[k + 1])
    ensures Merged(text, ts) == ts
    decreases |ts|
  {
    if ts != [] {
      var init := ts[..|ts| - 1];
      forall k | 0 <= k < |init| - 1
        ensures !ApostropheJoined(text, init[k], init[k + 1])
      {
        assert init[k] == ts[k] && init[k + 1] == ts[k + 1];
      }
      MergedNoApostrophe(text, init);
      if |ts| >= 2 {
        assert init[|init| - 1] == ts[|ts| - 2];
      }
      assert ts == init + [ts[|ts| - 1]];
    }
  }

  /** The word "Sam`s": the word segmentation splits it at the grave accent, and the
      merge glues the halves back into one token over the whole span. */
  lemma TokenizeExampleGrave(isAlnum: CharClass)
    requires isAlnum('S') && isAlnum('a') && isAlnum('m') && isAlnum('s')
    ensures Tokenize(isAlnum, "Sam`s", [Word(0, "Sam"), Word(4, "s")]) == [PendingToken("Sams", 0, 5)]
  {
    SplitExampleGrave(isAlnum);
    MergeExampleGrave();
    ExpandNoDash([PendingToken("Sams", 0, 5)], "Sam`s");
  }

  lemma SplitExampleGrave(isAlnum: CharClass)
    requires isAlnum('S') && isAlnum('a') && isAlnum('m') && isAlnum('s')
    ensures SplitAll(isAlnum, [Word(0, "Sam"), Word(4, "s")]) == [PendingToken("Sam", 0, 3), PendingToken("s", 4, 5)]
  {
    var words := [Word(0, "Sam"), Word(4, "s")];
    WordExampleSam(isAlnum);
    WordExampleS(isAlnum);
    assert words[..1] == [Word(0, "Sam")] && words[..1][..0] == [];
    assert SplitAll(isAlnum, words[..1]) == [PendingToken("Sam", 0, 3)];
    assert words[..2] == words;
  }

  lemma MergeExampleGrave()
    ensures Merged("Sam`s", [PendingToken("Sam", 0, 3), PendingToken("s", 4, 5)]) == [PendingToken("Sams", 0, 5)]
  {
    var sam, s := PendingToken("Sam", 0, 3), PendingToken("s", 4, 5);
    assert CharsInByteRange("Sam`s", 3, 4) == "`" by {
      assert "Sam`s" == "Sam" + "`" + "s";
      SliceOnBoundaries("Sam", "`", "s");
      assert ByteLen("Sam") == 3 && ByteLen("`") == 1;
    }
    assert ApostropheJoined("Sam`s", sam, s);
    assert [sam][..0] == [];
    assert Merged("Sam`s", [sam]) == [sam];
    MergedSnoc("Sam`s", [sam], s);
    assert [sam] + [s] == [sam, s];
    assert "Sam" + "s" == "Sams";
    assert MergeStep("Sam`s", [sam], s) == [Joined(sam, s)];
  }

  lemma WordExampleSam(isAlnum: CharClass)
    requires isAlnum('S') && isAlnum('a') && isAlnum('m')
    ensures WordTokens(isAlnum, 0, "Sam") == [PendingToken("Sam", 0, 3)]
  {
    var w := "Sam";
    assert RunEnd(isAlnum, w, 2) == 3;
    assert RunEnd(isAlnum, w, 1) == 3;
    assert RunEnd(isAlnum, w, 0) == 3;
    assert KeptIn(isAlnum, w, 2, 3) == "m";
    assert KeptIn(isAlnum, w, 1, 3) == "am";
    assert KeptIn(isAlnum, w, 0, 3) == "Sam";
    assert w[..3] == w && w[..0] == [];
    assert ByteLen(w[2..]) == 1;
    assert ByteLen(w[1..]) == 2;
    assert ByteAt(w, 3) == 3;
    assert TokensFrom(isAlnum, 0, w, 3) == [];
  }

  lemma WordExampleS(isAlnum: CharClass)
    requires isAlnum('s')
    ensures WordTokens(isAlnum, 4, "s") == [PendingToken("s", 4, 5)]
  {
    var w := "s";
    assert RunEnd(isAlnum, w, 0) == 1;
    assert KeptIn(isAlnum, w, 0, 1) == "s";
    assert w[..1] == w && w[..0] == [];
    assert ByteAt(w, 1) == 1;
    assert TokensFrom(isAlnum, 4, w, 1) == [];
  }

  /** A text made of one alphanumeric character is one token. */
  lemma OneLetterTokens(isAlnum: CharClass, c: char)
    requires isAlnum(c)
    ensures Tokenize(isAlnum, [c], [Word(0, [c])]) == [PendingToken([c], 0, Utf8Width(c))]
  {
    var w := [c];
    var t := PendingToken([c], 0, Utf8Width(c));
    assert RunEnd(isAlnum, w, 0) == 1;
    assert KeptIn(isAlnum, w, 0, 1) == w;
    assert w[..1] == w && w[..0] == [] && w[1..] == [] && w[0] == c;
    assert ByteLen(w) == Utf8Width(c) + ByteLen(w[1..]);
    assert ByteAt(w, 1) == Utf8Width(c);
    assert TokensFrom(isAlnum, 0, w, 1) == [];
    assert WordTokens(isAlnum, 0, w) == [t];
    assert [Word(0, w)][..0] == [];
    assert SplitAll(isAlnum, [Word(0, w)]) == [t];
    assert [t][..0] == [];
    assert Merged([c], [t]) == [t];
    ExpandNoDash([t], [c]);
  }
}
