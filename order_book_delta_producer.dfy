/** The order-book delta producer: for each change to a price level it sends
    one hand-built JSON string to a per-symbol topic. The four arguments are
    interpolated verbatim, without escaping. */
module OrderBookDeltaProducer {
  import opened Util

  /** The configured topic prefix when no property overrides it. */
  const DEFAULT_TOPIC_PREFIX: string := "order-book-delta-"

  /** ASCII case folding of one character; every other character is kept. */
  function LowerChar(c: char): (l: char)
    ensures !('A' <= l <= 'Z')
    ensures ('A' <= c <= 'Z') ==> l as int == c as int + 32
    ensures !('A' <= c <= 'Z') ==> l == c
  {
    if 'A' <= c <= 'Z' then (c as int + 32) as char else c
  }

  function ToLowerAscii(s: string): (r: string)
  {
    seq(|s|, i requires 0 <= i < |s| => LowerChar(s[i]))
  }

  /** The topic a delta for `symbol` goes to: the prefix followed by the
      symbol in lower case. */
  function Topic(prefix: string, symbol: string): (t: string)
    ensures |t| == |prefix| + |symbol|
    ensures t[..|prefix|] == prefix
    ensures forall i :: |prefix| <= i < |t| ==> !('A' <= t[i] <= 'Z')
  {
    prefix + ToLowerAscii(symbol)
  }

  /** The literal pieces of the message template. */
  const OPEN: string := "{\"symbol\":\""
  const SIDE_SEP: string := "\",\"side\":\""
  const PRICE_SEP: string := "\",\"price\":\""
  const QUANTITY_SEP: string := "\",\"unfilledQuantity\":\""
  const CLOSE: string := "\"}"

  /** `{"symbol":"S","side":"D","price":"P","unfilledQuantity":"Q"}`. */
  function DeltaMessage(symbol: string, side: string, price: string, unfilledQuantity: string): string
  {
    OPEN + (symbol + (SIDE_SEP + (side + (PRICE_SEP + (price + (QUANTITY_SEP + (unfilledQuantity + CLOSE)))))))
  }

  /** One Kafka record: topic and payload. */
  datatype Send = Send(topic: string, payload: string)

  /** `sendDelta`: exactly one record, to the symbol's topic. */
  function SendDelta(prefix: string, symbol: string, side: string, price: string, unfilledQuantity: string): (r: Send)
    ensures r.topic == Topic(prefix, symbol)
    ensures r.payload == DeltaMessage(symbol, side, price, unfilledQuantity)
  {
    Send(Topic(prefix, symbol), DeltaMessage(symbol, side, price, unfilledQuantity))
  }

  // ---------------------------------------------------------------------
  // Reading a message back: the partner of DeltaMessage.
  // ---------------------------------------------------------------------

  predicate NoQuote(s: string)
  {
    forall i :: 0 <= i < |s| ==> s[i] != '"'
  }

  /** The position of the first double quote, or |s| if there is none. */
  function IndexOfQuote(s: string): (k: nat)
    ensures k <= |s|
    ensures NoQuote(s[..k])
    ensures k < |s| ==> s[k] == '"'
  {
    if s == [] then 0
    else if s[0] == '"' then 0
    else
      var k := 1 + IndexOfQuote(s[1..]);
      assert s[..k] == [s[0]] + s[1..][..k - 1];
      k
  }

  /** A field runs up to the first quote, which must start `sep`; the rest
      of the text follows `sep`. */
  function TakeField(s: string, sep: string): Option<(string, string)>
  {
    var k := IndexOfQuote(s);
    if k + |sep| <= |s| && s[k..k + |sep|] == sep then Some((s[..k], s[k + |sep|..])) else None
  }

  datatype DeltaFields = DeltaFields(symbol: string, side: string, price: string, unfilledQuantity: string)

  /** Read the four fields of a delta message, each running up to the next quote. */
  function ParseDelta(m: string): Option<DeltaFields>
  {
    if |m| < |OPEN| || m[..|OPEN|] != OPEN then None else ParseSymbol(m[|OPEN|..])
  }

  function ParseSymbol(r0: string): Option<DeltaFields>
  {
    match TakeField(r0, SIDE_SEP)
    case None => None
    case Some((symbol, r1)) => ParseSide(symbol, r1)
  }

  function ParseSide(symbol: string, r1: string): Option<DeltaFields>
  {
    match TakeField(r1, PRICE_SEP)
    case None => None
    case Some((side, r2)) => ParsePrice(symbol, side, r2)
  }

  function ParsePrice(symbol: string, side: string, r2: string): Option<DeltaFields>
  {
    match TakeField(r2, QUANTITY_SEP)
    case None => None
    case Some((price, r3)) => ParseQuantity(symbol, side, price, r3)
  }

  function ParseQuantity(symbol: string, side: string, price: string, r3: string): Option<DeltaFields>
  {
    match TakeField(r3, CLOSE)
    case None => None
    case Some((unfilledQuantity, r4)) =>
      if r4 == [] then Some(DeltaFields(symbol, side, price, unfilledQuantity)) else None
  }

  lemma {:induction false} IndexOfQuoteAfterField(x: string, rest: string)
    requires NoQuote(x)
    requires |rest| > 0 && rest[0] == '"'
    ensures IndexOfQuote(x + rest) == |x|
    decreases |x|
  {
    if x == [] {
      assert x + rest == rest;
    } else {
      assert (x + rest)[1..] == x[1..] + rest;
      IndexOfQuoteAfterField(x[1..], rest);
    }
  }

  lemma TakeFieldOf(x: string, sep: string, rest: string)
    requires NoQuote(x)
    requires |sep| > 0 && sep[0] == '"'
    ensures TakeField(x + (sep + rest), sep) == Some((x, rest))
  {
    var s := x + (sep + rest);
    IndexOfQuoteAfterField(x, sep + rest);
    assert s[..|x|] == x;
    assert s[|x|..|x| + |sep|] == sep;
    assert s[|x| + |sep|..] == rest;
  }

  /** Round trip: when no field contains a double quote, the message gives
      back exactly the four arguments. */
  lemma DeltaRoundTrip(symbol: string, side: string, price: string, unfilledQuantity: string)
    requires NoQuote(symbol) && NoQuote(side) && NoQuote(price) && NoQuote(unfilledQuantity)
    ensures ParseDelta(DeltaMessage(symbol, side, price, unfilledQuantity))
            == Some(DeltaFields(symbol, side, price, unfilledQuantity))
  {
    var m := DeltaMessage(symbol, side, price, unfilledQuantity);
    var r3 := unfilledQuantity + CLOSE;
    var r2 := price + (QUANTITY_SEP + r3);
    var r1 := side + (PRICE_SEP + r2);
    var r0 := symbol + (SIDE_SEP + r1);
    assert r3 == unfilledQuantity + (CLOSE + []);
    TakeFieldOf(unfilledQuantity, CLOSE, []);
    assert ParseQuantity(symbol, side, price, r3) == Some(DeltaFields(symbol, side, price, unfilledQuantity));
    TakeFieldOf(price, QUANTITY_SEP, r3);
    assert ParsePrice(symbol, side, r2) == ParseQuantity(symbol, side, price, r3);
    TakeFieldOf(side, PRICE_SEP, r2);
    assert ParseSide(symbol, r1) == ParsePrice(symbol, side, r2);
    TakeFieldOf(symbol, SIDE_SEP, r1);
    assert ParseSymbol(r0) == ParseSide(symbol, r1);
    assert m[..|OPEN|] == OPEN && m[|OPEN|..] == r0;
  }

  /** Hence distinct quote-free arguments give distinct messages. */
  lemma DeltaMessageInjective(a: DeltaFields, b: DeltaFields)
    requires NoQuote(a.symbol) && NoQuote(a.side) && NoQuote(a.price) && NoQuote(a.unfilledQuantity)
    requires NoQuote(b.symbol) && NoQuote(b.side) && NoQuote(b.price) && NoQuote(b.unfilledQuantity)
    ensures (DeltaMessage(a.symbol, a.side, a.price, a.unfilledQuantity)
             == DeltaMessage(b.symbol, b.side, b.price, b.unfilledQuantity)) <==> a == b
  {
    DeltaRoundTrip(a.symbol, a.side, a.price, a.unfilledQuantity);
    DeltaRoundTrip(b.symbol, b.side, b.price, b.unfilledQuantity);
  }

  /** Without escaping the message does not determine its fields: a symbol
      that itself contains the side separator reads like a different side. */
  lemma UnescapedFieldsCollide()
    ensures DeltaMessage("A" + SIDE_SEP + "B", "C", "1", "2") == DeltaMessage("A", "B" + SIDE_SEP + "C", "1", "2")
    ensures "A" + SIDE_SEP + "B" != "A"
  {
    assert |"A" + SIDE_SEP + "B"| != |"A"|;
  }

  /** A caller's leading minus sign reaches the consumer untouched, so the
      engine's `"-" + matched` reads as a negative delta. */
  lemma NegativeDeltaSurvives(symbol: string, side: string, price: string, matched: string)
    requires NoQuote(symbol) && NoQuote(side) && NoQuote(price) && NoQuote(matched)
    ensures ParseDelta(DeltaMessage(symbol, side, price, "-" + matched))
            == Some(DeltaFields(symbol, side, price, "-" + matched))
  {
    var q := "-" + matched;
    forall i | 0 <= i < |q|
      ensures q[i] != '"'
    {
      if i > 0 { assert q[i] == matched[i - 1]; }
    }
    DeltaRoundTrip(symbol, side, price, q);
  }

  /** Lower-casing is idempotent, so symbols that differ only in ASCII case
      share a topic. */
  lemma TopicIgnoresCase(prefix: string, symbol: string)
    ensures Topic(prefix, ToLowerAscii(symbol)) == Topic(prefix, symbol)
  {
    assert ToLowerAscii(ToLowerAscii(symbol)) == ToLowerAscii(symbol);
  }

  lemma DefaultTopicExample()
    ensures Topic(DEFAULT_TOPIC_PREFIX, "BTCUSDT") == "order-book-delta-btcusdt"
  {
    assert ToLowerAscii("BTCUSDT") == "btcusdt";
  }
}
