/**
  What the two message matchers of `Messages` compute: each scanner returns the
  leftmost, longest match of its pattern, and nothing only when nothing matches.
*/
module MessageFacts {
  import opened Wrappers
  import opened Text
  import opened Messages

  // ---------------------------------------------------------------------------
  // extract_symbol
  // ---------------------------------------------------------------------------

  /** The scanner's match at `p`, cut out of the message, has the reference shape
      with its slash where the scanner found it. */
  lemma SymbolAtMatches(s: string, p: nat)
    requires p <= |s| && SymbolAt(s, p)
    ensures PairShapeAt(s[p..SymbolEnd(s, p)], RunEnd(s, p, Upper) - p)
  {
    var q, e := RunEnd(s, p, Upper), SymbolEnd(s, p);
    SpanShift(s, p, e, 0, q - p, Upper);
    SpanShift(s, p, e, q - p + 1, e - p, Upper);
  }

  /** Any match of the pattern at `p` is seen by the scanner and is no longer than its match. */
  lemma PairTokenIsFound(s: string, p: nat, e: nat, k: nat)
    requires p <= e <= |s| && PairShapeAt(s[p..e], k)
    ensures SymbolAt(s, p) && e <= SymbolEnd(s, p)
  {
    var t := s[p..e];
    assert s[p + k] == t[k] && s[p + k + 1] == t[k + 1];
    SpanShift(s, p, e, 0, k, Upper);
    SpanShift(s, p, e, k + 1, e - p, Upper);
    RunEndIs(s, p, p + k, Upper);
    RunEndAtLeast(s, p + k + 1, e, Upper);
  }

  /** A capital just before `p` extends the same run, so the match would have started earlier. */
  lemma SymbolAtShifts(s: string, p: nat)
    requires 0 < p <= |s| && SymbolAt(s, p) && InClass(s[p - 1], Upper)
    ensures SymbolAt(s, p - 1)
  {
    assert RunEnd(s, p - 1, Upper) == RunEnd(s, p, Upper);
  }

  /** Positions where the scanner finds nothing hold no match of the pattern. */
  lemma NoPairTokenIn(s: string, hi: nat)
    requires hi <= |s| + 1
    requires forall b :: 0 <= b < hi && b <= |s| ==> !SymbolAt(s, b)
    ensures forall b, e :: 0 <= b < hi && b <= e <= |s| ==> !IsPairToken(s[b..e])
  {
    forall b, e | 0 <= b < hi && b <= e <= |s| ensures !IsPairToken(s[b..e]) {
      if IsPairToken(s[b..e]) {
        var k: nat :| PairShapeAt(s[b..e], k);
        PairTokenIsFound(s, b, e, k);
      }
    }
  }

  /**
    `extract_symbol` returns a substring of the message that matches `[A-Z]+/[A-Z]+`;
    no match starts further left; both sides are maximal runs of capitals (so
    "1INCH/USDT" gives "INCH/USDT"); and `None` means that no substring matches.
  */
  lemma ExtractSymbolIsLeftmostLongest(s: string)
    ensures ExtractSymbol(s).Some? ==>
      exists b: nat :: SymbolMatchAt(s, b, ExtractSymbol(s).value)
    ensures ExtractSymbol(s).None? ==>
      forall b, e :: 0 <= b <= e <= |s| ==> !IsPairToken(s[b..e])
  {
    match FindSymbol(s, 0)
    case None =>
      NoPairTokenIn(s, |s| + 1);
    case Some((b, e)) =>
      var m := s[b..e];
      SymbolAtMatches(s, b);
      assert IsPairToken(m);
      if b > 0 && InClass(s[b - 1], Upper) {
        SymbolAtShifts(s, b);
        assert false;
      }
      NoPairTokenIn(s, b);
      assert SymbolMatchAt(s, b, m);
  }

  // ---------------------------------------------------------------------------
  // extract_exchange
  // ---------------------------------------------------------------------------

  /** Every match of the pattern at `p` has its groups where the scanner puts them,
      and ends no later than the scanner's (greedy) match. */
  lemma ExchangeTokenIsFound(s: string, p: nat, e: nat, q: nat, w: nat, x: nat)
    requires p <= e <= |s| && ExchangeShapeAt(s[p..e], q, w, x)
    ensures ExchangeSpanAt(s, p).Some?
    ensures var v := ExchangeSpanAt(s, p).value;
      v.buyStart == p + w && v.sep == p + x && e <= v.stop
  {
    ShapeShift(s, p, e, q, w, x);
    RunsAreFound(s, p, p + q, p + w, p + x, e);
  }

  /** The scanner run at `p` finds the colon, the buy venue and the separator of
      any pattern match starting there, and reads the sell venue at least as far. */
  lemma RunsAreFound(s: string, p: nat, q: nat, w: nat, x: nat, e: nat)
    requires RunsAt(s, p, q, w, x, e)
    ensures ExchangeSpanAt(s, p).Some?
    ensures var v := ExchangeSpanAt(s, p).value;
      v.buyStart == w && v.sep == x && e <= v.stop
  {
    RunEndIs(s, p, q, Letter);
    RunEndIs(s, q + 1, w, Space);
    RunEndIs(s, w, x, Letter);
    RunEndAtLeast(s, x + 1, e, Letter);
  }

  /** Positions where the scanner finds nothing hold no match of the pattern. */
  lemma NoExchangeTokenIn(s: string, hi: nat)
    requires hi <= |s| + 1
    requires forall b :: 0 <= b < hi && b <= |s| ==> ExchangeSpanAt(s, b).None?
    ensures forall b, e :: 0 <= b < hi && b <= e <= |s| ==> !IsExchangeToken(s[b..e])
  {
    forall b, e | 0 <= b < hi && b <= e <= |s| ensures !IsExchangeToken(s[b..e]) {
      if IsExchangeToken(s[b..e]) {
        var q: nat, w: nat, x: nat :| ExchangeShapeAt(s[b..e], q, w, x);
        ExchangeTokenIsFound(s, b, e, q, w, x);
      }
    }
  }

  /** The span the scanner reports is a leftmost, longest match with its groups. */
  lemma FoundExchangeMatches(s: string, v: VenueSpan)
    requires v.start <= |s| && RunsAt(s, v.start, v.colon, v.buyStart, v.sep, v.stop)
    requires v.stop == |s| || !InClass(s[v.stop], Letter)
    requires forall b :: 0 <= b < v.start ==> ExchangeSpanAt(s, b).None?
    ensures ExchangeMatchAt(s, v.start, v.stop, v.colon - v.start,
      v.buyStart - v.start, v.sep - v.start,
      Lower(s[v.buyStart..v.sep]), Lower(s[v.sep + 1..v.stop]))
  {
    ShapeShift(s, v.start, v.stop, v.colon - v.start, v.buyStart - v.start, v.sep - v.start);
    NoExchangeTokenIn(s, v.start);
  }

  /**
    `extract_exchange` returns the two venue groups, lowercased, of the leftmost,
    longest match of its pattern, and `(None, None)` exactly when no substring
    matches.
  */
  lemma ExtractExchangeIsLeftmostLongest(s: string)
    ensures ExtractExchange(s).0.Some? ==>
      exists b: nat, e: nat, q: nat, w: nat, x: nat ::
        ExchangeMatchAt(s, b, e, q, w, x, ExtractExchange(s).0.value, ExtractExchange(s).1.value)
    ensures ExtractExchange(s).0.None? ==>
      forall b, e :: 0 <= b <= e <= |s| ==> !IsExchangeToken(s[b..e])
  {
    match FindExchange(s, 0)
    case None =>
      NoExchangeTokenIn(s, |s| + 1);
    case Some(v) =>
      FoundExchangeMatches(s, v);
  }

  // ---------------------------------------------------------------------------
  // Worked examples
  // ---------------------------------------------------------------------------

  lemma PairAtOne(s: string)
    requires s == "1INCH/USDT"
    ensures !SymbolAt(s, 0) && SymbolAt(s, 1) && SymbolEnd(s, 1) == 10
  {
    assert RunEnd(s, 0, Upper) == 0;
    assert RunEnd(s, 1, Upper) == 5 by { RunEndIs(s, 1, 5, Upper); }
    assert RunEnd(s, 6, Upper) == 10 by { RunEndIs(s, 6, 10, Upper); }
  }

  /** Digits are not capitals: the leading digit of "1INCH" is dropped. */
  lemma ExtractSymbolDropsDigits()
    ensures ExtractSymbol("1INCH/USDT") == Some("INCH/USDT")
  {
    var s := "1INCH/USDT";
    PairAtOne(s);
    assert FindSymbol(s, 0) == Some((1, 10));
    assert s[1..10] == "INCH/USDT";
  }

  /** A two-character arrow never matches: after the buy venue comes exactly one separator. */
  lemma ExtractExchangeRejectsLongArrow()
    ensures ExtractExchange("A->B") == (None, None)
  {
    var s := "A->B";
    assert RunEnd(s, 0, Letter) == 1 by { RunEndIs(s, 0, 1, Letter); }
    assert ExchangeSpanAt(s, 0).None?;
    assert ExchangeSpanAt(s, 1).None?;
    assert ExchangeSpanAt(s, 2).None?;
    assert RunEnd(s, 3, Letter) == 4 by { RunEndIs(s, 3, 4, Letter); }
    assert ExchangeSpanAt(s, 3).None?;
    assert FindExchange(s, 4).None?;
  }

  lemma SignalLabelRuns(s: string)
    requires s == "Signal: MEXC\U{2192}Gate"
    ensures RunEnd(s, 0, Letter) == 6 && RunEnd(s, 7, Space) == 8
  {
    RunEndIs(s, 0, 6, Letter);
    RunEndIs(s, 7, 8, Space);
  }

  lemma SignalVenueRuns(s: string)
    requires s == "Signal: MEXC\U{2192}Gate"
    ensures RunEnd(s, 8, Letter) == 12 && RunEnd(s, 13, Letter) == 17
  {
    RunEndIs(s, 8, 12, Letter);
    RunEndIs(s, 13, 17, Letter);
  }

  lemma SignalSpan(s: string)
    requires s == "Signal: MEXC\U{2192}Gate"
    ensures ExchangeSpanAt(s, 0) == Some(VenueSpan(0, 6, 8, 12, 17))
  {
    SignalLabelRuns(s);
    SignalVenueRuns(s);
  }

  lemma SignalSlices(s: string)
    requires s == "Signal: MEXC\U{2192}Gate"
    ensures s[8..12] == "MEXC" && s[13..17] == "Gate"
  {
  }

  lemma LowerVenues()
    ensures Lower("MEXC") == "mexc" && Lower("Gate") == "gate"
  {
    var buy, sell := Lower("MEXC"), Lower("Gate");
    assert buy[0] == 'm' && buy[1] == 'e' && buy[2] == 'x' && buy[3] == 'c';
    assert sell[0] == 'g' && sell[1] == 'a' && sell[2] == 't' && sell[3] == 'e';
  }

  /** A match that starts at the first character is the one reported. */
  lemma ExtractExchangeAtStart(s: string, v: VenueSpan)
    requires ExchangeSpanAt(s, 0) == Some(v)
    ensures ExtractExchange(s) == (Some(Lower(s[v.buyStart..v.sep])), Some(Lower(s[v.sep + 1..v.stop])))
  {
  }

  /** The venues of a typical signal line, lowercased. */
  lemma ExtractExchangeExample()
    ensures ExtractExchange("Signal: MEXC\U{2192}Gate") == (Some("mexc"), Some("gate"))
  {
    var s := "Signal: MEXC\U{2192}Gate";
    SignalSpan(s);
    ExtractExchangeAtStart(s, VenueSpan(0, 6, 8, 12, 17));
    SignalSlices(s);
    LowerVenues();
  }
}
