/**
  The two matchers that turn a signal message into a trading pair and a pair of
  venues (`extract_symbol` and `extract_exchange` in src/utils.py).

  Both are single `re.search` calls. Their patterns leave no backtracking choice,
  so each is written here as a scanner over maximal runs of one character class.
  Next to each scanner stands a reference predicate that says, with explicit
  offsets, what it means for a string to match the whole pattern; the lemmas
  prove that the scanner returns the leftmost match, extended as far as the
  greedy quantifiers take it, and that it finds nothing only when nothing matches.
*/
module Messages {
  import opened Wrappers
  import opened Text

  // ---------------------------------------------------------------------------
  // extract_symbol: re.search(r'([A-Z]+/[A-Z]+)', message)
  // ---------------------------------------------------------------------------

  /** Reference: `t` is capitals on `[0, k)`, a slash at `k`, capitals on `(k, |t|)`,
      both runs non-empty. */
  predicate PairShapeAt(t: string, k: nat) {
    0 < k < |t| - 1 && t[k] == '/' && Span(t, 0, k, Upper) && Span(t, k + 1, |t|, Upper)
  }

  /** Reference: the whole of `t` matches `[A-Z]+/[A-Z]+`. */
  ghost predicate IsPairToken(t: string) {
    exists k: nat :: PairShapeAt(t, k)
  }

  /** The scanner's test: the pattern can match starting at `p`. */
  predicate SymbolAt(s: string, p: nat)
    requires p <= |s|
  {
    var q := RunEnd(s, p, Upper);
    p < q < |s| - 1 && s[q] == '/' && InClass(s[q + 1], Upper)
  }

  /** Where the greedy match at `p` ends: at the end of the capitals after the slash. */
  function SymbolEnd(s: string, p: nat): nat
    requires p <= |s| && SymbolAt(s, p)
  {
    RunEnd(s, RunEnd(s, p, Upper) + 1, Upper)
  }

  /** The leftmost position from `p` on where the pattern matches, with the end of the match. */
  function FindSymbol(s: string, p: nat): (r: Option<(nat, nat)>)
    requires p <= |s|
    ensures r.Some? ==>
      p <= r.value.0 < r.value.1 <= |s| && SymbolAt(s, r.value.0) && r.value.1 == SymbolEnd(s, r.value.0)
    ensures r.Some? ==> forall b :: p <= b < r.value.0 ==> !SymbolAt(s, b)
    ensures r.None? ==> forall b :: p <= b <= |s| ==> !SymbolAt(s, b)
    decreases |s| - p
  {
    if p == |s| then None
    else if SymbolAt(s, p) then Some((p, SymbolEnd(s, p)))
    else FindSymbol(s, p + 1)
  }

  /** `extract_symbol`: the first `BASE/QUOTE` token of the message, or `None`. */
  function ExtractSymbol(message: string): Option<string> {
    match FindSymbol(message, 0)
    case None => None
    case Some((b, e)) => Some(message[b..e])
  }

  /** `m` occurs in `s` at `b`, matches the whole pattern, cannot be extended on
      either side, and no match of the pattern starts before `b`. */
  ghost predicate SymbolMatchAt(s: string, b: nat, m: string) {
    b + |m| <= |s| && s[b..b + |m|] == m && IsPairToken(m)
    && (b == 0 || !InClass(s[b - 1], Upper))
    && (b + |m| == |s| || !InClass(s[b + |m|], Upper))
    && forall b', e' :: 0 <= b' < b && b' <= e' <= |s| ==> !IsPairToken(s[b'..e'])
  }

  // ---------------------------------------------------------------------------
  // extract_exchange: re.search(r'([A-Za-z]+):\s*([A-Za-z]+)[→\-–>]([A-Za-z]+)', text)
  // ---------------------------------------------------------------------------

  /** `→`, `-`, `–` (en dash) or `>`: exactly one character. */
  predicate IsSeparator(c: char) {
    c == '\U{2192}' || c == '-' || c == '\U{2013}' || c == '>'
  }

  /** Reference: `t` is `label ':' spaces buy sep sell` with the colon at `q`, the buy
      venue on `[w, x)`, the separator at `x` and the sell venue on `(x, |t|)`. */
  predicate ExchangeShapeAt(t: string, q: nat, w: nat, x: nat) {
    0 < q < w < x < |t| - 1
    && t[q] == ':' && IsSeparator(t[x])
    && Span(t, 0, q, Letter) && Span(t, q + 1, w, Space)
    && Span(t, w, x, Letter) && Span(t, x + 1, |t|, Letter)
  }

  ghost predicate IsExchangeToken(t: string) {
    exists q: nat, w: nat, x: nat :: ExchangeShapeAt(t, q, w, x)
  }

  /** The shape of `ExchangeShapeAt`, read in message positions: label on `[p, q)`,
      colon at `q`, white space on `(q, w)`, buy venue on `[w, x)`, separator at
      `x`, sell venue on `(x, e)`. */
  predicate RunsAt(s: string, p: nat, q: nat, w: nat, x: nat, e: nat) {
    p < q < w < x && x + 1 < e <= |s|
    && s[q] == ':' && IsSeparator(s[x])
    && Span(s, p, q, Letter) && Span(s, q + 1, w, Space)
    && Span(s, w, x, Letter) && Span(s, x + 1, e, Letter)
  }

  /** Where the greedy match at `start` puts the colon, the buy venue `[buyStart, sep)`,
      the separator `sep` and the sell venue `(sep, stop)` (positions in the message). */
  datatype VenueSpan = VenueSpan(start: nat, colon: nat, buyStart: nat, sep: nat, stop: nat)

  /** The scanner's attempt at `p`: label run, colon, white-space run, buy run,
      separator, at least one letter. */
  function ExchangeSpanAt(s: string, p: nat): (r: Option<VenueSpan>)
    requires p <= |s|
    ensures r.Some? ==> r.value.start == p && r.value.colon == RunEnd(s, p, Letter)
    ensures r.Some? ==> RunsAt(s, p, r.value.colon, r.value.buyStart, r.value.sep, r.value.stop)
    ensures r.Some? ==> r.value.stop == |s| || !InClass(s[r.value.stop], Letter)
  {
    var q := RunEnd(s, p, Letter);
    if q == p || q == |s| || s[q] != ':' then None
    else
      var w := RunEnd(s, q + 1, Space);
      var x := RunEnd(s, w, Letter);
      if x == w || x >= |s| - 1 || !IsSeparator(s[x]) || !InClass(s[x + 1], Letter) then None
      else Some(VenueSpan(p, q, w, x, RunEnd(s, x + 1, Letter)))
  }

  function FindExchange(s: string, p: nat): (r: Option<VenueSpan>)
    requires p <= |s|
    ensures r.Some? ==> p <= r.value.start <= |s| && ExchangeSpanAt(s, r.value.start) == r
    ensures r.Some? ==> forall b :: p <= b < r.value.start ==> ExchangeSpanAt(s, b).None?
    ensures r.None? ==> forall b :: p <= b <= |s| ==> ExchangeSpanAt(s, b).None?
    decreases |s| - p
  {
    if p == |s| then
      assert ExchangeSpanAt(s, p).None?;
      None
    else if ExchangeSpanAt(s, p).Some? then ExchangeSpanAt(s, p)
    else FindExchange(s, p + 1)
  }

  /** `extract_exchange`: the buy and sell venue of the first match, lowercased,
      or `(None, None)`. */
  function ExtractExchange(text: string): (r: (Option<string>, Option<string>))
    ensures r.0.Some? <==> r.1.Some?
  {
    match FindExchange(text, 0)
    case None => (None, None)
    case Some(v) => (Some(Lower(text[v.buyStart..v.sep])), Some(Lower(text[v.sep + 1..v.stop])))
  }

  /** `s[b..e]` matches the whole pattern with its colon at `q`, its buy venue on
      `[w, x)` and its separator at `x` (offsets into the match); its last group
      cannot be extended; no match starts before `b`; and `buy`/`sell` are its two
      venue groups lowercased. */
  ghost predicate ExchangeMatchAt(s: string, b: nat, e: nat, q: nat, w: nat, x: nat,
                                  buy: string, sell: string)
  {
    b <= e <= |s| && ExchangeShapeAt(s[b..e], q, w, x)
    && (e == |s| || !InClass(s[e], Letter))
    && buy == Lower(s[b + w..b + x]) && sell == Lower(s[b + x + 1..e])
    && forall b', e' :: 0 <= b' < b && b' <= e' <= |s| ==> !IsExchangeToken(s[b'..e'])
  }

  /** A match in `s[p..e]` is the same thing as runs in `s` moved by `p`. */
  lemma ShapeShift(s: string, p: nat, e: nat, q: nat, w: nat, x: nat)
    requires p <= e <= |s|
    ensures ExchangeShapeAt(s[p..e], q, w, x) <==> RunsAt(s, p, p + q, p + w, p + x, e)
  {
    var t := s[p..e];
    if 0 < q < w < x && x + 1 < e - p {
      assert t[q] == s[p + q] && t[x] == s[p + x];
      SpanShift(s, p, e, 0, q, Letter);
      SpanShift(s, p, e, q + 1, w, Space);
      SpanShift(s, p, e, w, x, Letter);
      SpanShift(s, p, e, x + 1, e - p, Letter);
    }
  }
}
