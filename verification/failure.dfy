/** crates/failure: turning evidence about a failed bundle into a verdict. */
module Failure {
  import opened Wrappers
  import opened Numbers
  import opened Text

  /** A blockhash older than this many slots can no longer be used. */
  const BLOCKHASH_VALIDITY_SLOTS: u64 := 150

  datatype FailureKind =
    | ExpiredBlockhash
    | FeeTooLow
    | ComputeExceeded
    | BundleFailure
    | TransportError
    | AuctionLost

  datatype JitoInflight = JitoInvalid | JitoFailed | JitoPending | JitoLanded | JitoUnknown | NotPolled

  datatype Confidence = Certain | Likely | Ambiguous(alternatives: seq<FailureKind>)

  /** The verdict; its human-readable rationale is not part of this model. */
  datatype Classification = Classification(kind: FailureKind, confidence: Confidence)

  datatype Evidence =
    | SubmitRejection(rawError: string)
    | OnChainError(rawErrorHex: string, slot: u64)
    | NeverLanded(
        submittedSlot: u64,
        blockhashFetchedAtSlot: u64,
        lastObservedSlot: u64,
        tipLamports: u64,
        tipP50AtSubmit: Option<u64>,
        tipP75AtSubmit: Option<u64>,
        jitoInflight: JitoInflight)

  /** The on-chain errors the classifier tells apart. */
  datatype TransactionError =
    | BlockhashNotFound
    | ComputationalBudgetExceeded(instruction: u8)
    | MaxLoadedAccountsDataSizeExceeded
    | OtherError(code: nat)

  /** What the classifier takes from other libraries: the binary decoding of an on-chain
      error, and the substring rules for Block Engine rejections. Both are arbitrary here. */
  datatype Interpreter = Interpreter(
    decode: seq<u8> -> Option<TransactionError>,
    rejection: string -> Classification)

  function FromStatusStr(s: Option<string>): JitoInflight {
    match s
    case None => NotPolled
    case Some(v) =>
      var v := ToAsciiLowercase(Trim(v));
      if v == "invalid" then JitoInvalid
      else if v == "failed" then JitoFailed
      else if v == "pending" then JitoPending
      else if v == "landed" then JitoLanded
      else if v == "" then NotPolled
      else JitoUnknown
  }

  function Classify(rules: Interpreter, evidence: Evidence): Classification {
    match evidence
    case SubmitRejection(raw) => rules.rejection(raw)
    case OnChainError(hex, _) => ClassifyOnChain(rules, hex)
    case NeverLanded(submitted, fetched, last, tip, p50, p75, jito) =>
      ClassifyNeverLanded(submitted, fetched, last, tip, p50, p75, jito)
  }

  function ClassifyOnChain(rules: Interpreter, rawErrorHex: string): Classification {
    match DecodeHex(rawErrorHex)
    case None => Classification(BundleFailure, Ambiguous([]))
    case Some(bytes) =>
      match rules.decode(bytes)
      case None => Classification(BundleFailure, Ambiguous([]))
      case Some(error) => MapTxError(error)
  }

  function MapTxError(error: TransactionError): Classification {
    match error
    case BlockhashNotFound => Classification(ExpiredBlockhash, Certain)
    case ComputationalBudgetExceeded(_) => Classification(ComputeExceeded, Certain)
    case MaxLoadedAccountsDataSizeExceeded => Classification(ComputeExceeded, Certain)
    case OtherError(_) => Classification(BundleFailure, Likely)
  }

  /** The tests are made in this order so that the root cause is named: a blockhash already
      stale at submission, then an outbid tip, then a lost auction. `last` and `p75` reach
      only the rationale. */
  function ClassifyNeverLanded(submitted: u64, fetched: u64, last: u64, tip: u64,
                               p50: Option<u64>, p75: Option<u64>, jito: JitoInflight): Classification
  {
    if SaturatingSub(submitted, fetched) > BLOCKHASH_VALIDITY_SLOTS then
      Classification(ExpiredBlockhash, Certain)
    else if p50.Some? && tip < p50.value then
      Classification(FeeTooLow, Likely)
    else
      match jito
      case JitoInvalid => Classification(AuctionLost, Certain)
      case JitoFailed => Classification(AuctionLost, Likely)
      case _ => Classification(AuctionLost, Ambiguous([BundleFailure]))
  }

  // ---------------------------------------------------------------------------
  // Hexadecimal: two printers and one parser
  // ---------------------------------------------------------------------------

  function HexDigit(d: int): char
    requires 0 <= d < 16
  {
    if d < 10 then ('0' as int + d) as char else ('a' as int + d - 10) as char
  }

  /** `char::to_digit(16)`. */
  function ToDigit(c: char): (d: Option<int>)
    ensures d.Some? ==> 0 <= d.value < 16
  {
    if '0' <= c <= '9' then Some(c as int - '0' as int)
    else if 'a' <= c <= 'f' then Some(c as int - 'a' as int + 10)
    else if 'A' <= c <= 'F' then Some(c as int - 'A' as int + 10)
    else None
  }

  /** `{b:02x}`: two lower-case digits. */
  function HexByte(b: u8): string {
    [HexDigit(b / 16), HexDigit(b % 16)]
  }

  function Hex(bytes: seq<u8>): (s: string)
    ensures |s| == 2 * |bytes|
    ensures forall i :: 0 <= i < |s| ==> ToDigit(s[i]).Some? && !IsWhitespace(s[i])
  {
    if bytes == [] then "" else Hex(bytes[..|bytes| - 1]) + HexByte(bytes[|bytes| - 1])
  }

  /** The tracker's printer, for statuses fetched by reconcile. */
  method ToHex(bytes: seq<u8>) returns (s: string)
    ensures s == Hex(bytes)
  {
    s := "";
    for i := 0 to |bytes|
      invariant s == Hex(bytes[..i])
    {
      s := s + HexByte(bytes[i]);
      assert bytes[..i + 1][..i] == bytes[..i];
    }
    assert bytes[..|bytes|] == bytes;
  }

  /** The stream's printer, for statuses pushed by the node. */
  method HexEncode(bytes: seq<u8>) returns (s: string)
    ensures s == "0x" + Hex(bytes)
  {
    s := "0x";
    for i := 0 to |bytes|
      invariant s == "0x" + Hex(bytes[..i])
    {
      s := s + HexByte(bytes[i]);
      assert bytes[..i + 1][..i] == bytes[..i];
    }
    assert bytes[..|bytes|] == bytes;
  }

  function StripPrefix(s: string): string {
    if "0x" <= s || "0X" <= s then s[2..] else s
  }

  /** The part of the input that must consist of digits. */
  function Digits(s: string): string {
    StripPrefix(Trim(s))
  }

  /** The bytes spelt by pairs of digits of either case. */
  function Pairs(d: string): (r: Option<seq<u8>>)
    requires |d| % 2 == 0
    ensures r.Some? ==> |r.value| == |d| / 2
  {
    if d == "" then Some([])
    else
      var front, hi, lo := Pairs(d[..|d| - 2]), ToDigit(d[|d| - 2]), ToDigit(d[|d| - 1]);
      if front.None? || hi.None? || lo.None? then None
      else Some(front.value + [hi.value * 16 + lo.value])
  }

  lemma {:induction false} PairsOfPrefix(d: string, i: nat)
    requires |d| % 2 == 0 && i % 2 == 0 && i <= |d|
    requires Pairs(d[..i]).None?
    ensures Pairs(d).None?
  {
    if i == |d| {
      assert d[..i] == d;
    } else {
      assert d[..|d| - 2][..i] == d[..i];
      PairsOfPrefix(d[..|d| - 2], i);
    }
  }

  /** What the parser computes: nothing unless there is a positive, even number of digits. */
  function DecodeHex(s: string): Option<seq<u8>> {
    var d := Digits(s);
    if d == "" || |d| % 2 != 0 then None else Pairs(d)
  }

  /** The parser as written: it stops at the first character that is not a digit. */
  method DecodeHexLoop(s: string) returns (r: Option<seq<u8>>)
    ensures r == DecodeHex(s)
  {
    var d := Digits(s);
    if d == "" || |d| % 2 != 0 {
      return None;
    }
    var out: seq<u8> := [];
    var i := 0;
    while i < |d|
      invariant 0 <= i <= |d| && i % 2 == 0
      invariant Pairs(d[..i]) == Some(out)
    {
      var hi, lo := ToDigit(d[i]), ToDigit(d[i + 1]);
      assert d[..i + 2][..i] == d[..i];
      if hi.None? || lo.None? {
        PairsOfPrefix(d, i + 2);
        return None;
      }
      out := out + [hi.value * 16 + lo.value];
      i := i + 2;
    }
    assert d[..i] == d;
    r := Some(out);
  }

  lemma HexSnoc(bytes: seq<u8>, x: u8)
    ensures Hex(bytes + [x]) == Hex(bytes) + [HexDigit(x / 16), HexDigit(x % 16)]
  {
    assert (bytes + [x])[..|bytes|] == bytes;
  }

  lemma DigitsOfByte(x: u8)
    ensures ToDigit(HexDigit(x / 16)) == Some(x / 16) && ToDigit(HexDigit(x % 16)) == Some(x % 16)
    ensures x / 16 * 16 + x % 16 == x
  {
  }

  lemma {:induction false} PairsOfHex(bytes: seq<u8>)
    ensures Pairs(Hex(bytes)) == Some(bytes)
  {
    if bytes != [] {
      var front, x := bytes[..|bytes| - 1], bytes[|bytes| - 1];
      PairsOfHex(front);
      SplitByte(bytes);
      HexSnoc(front, x);
      PairsUnfold(Hex(front), HexDigit(x / 16), HexDigit(x % 16));
      DigitsOfByte(x);
    }
  }

  /** Digits alone, or behind the prefix, are what is left to read. */
  lemma DigitsOfDigits(h: string)
    requires forall i :: 0 <= i < |h| ==> ToDigit(h[i]).Some? && !IsWhitespace(h[i])
    ensures Digits(h) == h
    ensures Digits("0x" + h) == h
  {
    var prefixed := "0x" + h;
    TrimKeeps(h);
    TrimKeeps(prefixed);
    assert prefixed[2..] == h;
    if 2 <= |h| {
      assert ToDigit(h[1]).Some?;
      assert h[1] != 'x' && h[1] != 'X';
    }
  }

  /** Printing then parsing gives the bytes back, for either printer; the empty string of
      bytes is the one value neither printed form of which can be read back. */
  lemma PrintersInvertParser(bytes: seq<u8>)
    ensures DecodeHex(Hex(bytes)) == (if bytes == [] then None else Some(bytes))
    ensures DecodeHex("0x" + Hex(bytes)) == (if bytes == [] then None else Some(bytes))
  {
    DigitsOfDigits(Hex(bytes));
    PairsOfHex(bytes);
  }

  lemma LowerOfPair(front: string, a: char, b: char)
    ensures ToAsciiLowercase(front + [a, b]) == ToAsciiLowercase(front) + [LowerAscii(a), LowerAscii(b)]
  {
  }

  lemma SplitPair(x: string, x': string, a: char, a': char, b: char, b': char)
    requires |x| == |x'|
    ensures x + [a, b] == x' + [a', b'] <==> x == x' && a == a' && b == b'
  {
    if x + [a, b] == x' + [a', b'] {
      assert (x + [a, b])[..|x|] == x && (x' + [a', b'])[..|x|] == x';
      assert (x + [a, b])[|x|] == a && (x' + [a', b'])[|x|] == a';
      assert (x + [a, b])[|x| + 1] == b && (x' + [a', b'])[|x| + 1] == b';
    }
  }

  lemma Nibbles(hi: int, lo: int, x: u8)
    requires 0 <= hi < 16 && 0 <= lo < 16
    ensures hi * 16 + lo == x <==> hi == x / 16 && lo == x % 16
  {
  }

  lemma SplitLast(x: seq<u8>, x': seq<u8>, a: u8, a': u8)
    ensures x + [a] == x' + [a'] <==> x == x' && a == a'
  {
    if x + [a] == x' + [a'] {
      assert (x + [a])[..|x|] == x && (x' + [a'])[..|x'|] == x';
      assert (x + [a])[|x|] == a && (x' + [a'])[|x'|] == a';
    }
  }

  lemma PairsUnfold(front: string, a: char, b: char)
    requires |front| % 2 == 0
    ensures |front + [a, b]| % 2 == 0
    ensures Pairs(front + [a, b]) ==
      if Pairs(front).None? || ToDigit(a).None? || ToDigit(b).None? then None
      else Some(Pairs(front).value + [ToDigit(a).value * 16 + ToDigit(b).value])
  {
  }

  lemma SplitTail(d: string)
    requires |d| >= 2
    ensures d == d[..|d| - 2] + [d[|d| - 2], d[|d| - 1]]
  {
  }

  lemma SplitByte(bytes: seq<u8>)
    requires bytes != []
    ensures bytes == bytes[..|bytes| - 1] + [bytes[|bytes| - 1]]
  {
  }

  lemma {:induction false} HexOfPairs(d: string, bytes: seq<u8>)
    requires |d| == 2 * |bytes|
    ensures Pairs(d) == Some(bytes) <==> ToAsciiLowercase(d) == Hex(bytes)
  {
    if bytes == [] {
      assert d == "";
    } else {
      var front, head := d[..|d| - 2], bytes[..|bytes| - 1];
      HexOfPairs(front, head);
      SplitTail(d);
      SplitByte(bytes);
      HexOfPair(front, d[|d| - 2], d[|d| - 1], head, bytes[|bytes| - 1]);
    }
  }

  /** One more pair of characters against one more byte, given what came before. */
  lemma PairAgrees(read: Option<seq<u8>>, bytes: seq<u8>, lower: string, printed: string, a: char, b: char, x: u8)
    requires |lower| == |printed| && (read == Some(bytes) <==> lower == printed)
    ensures var hi, lo := ToDigit(a), ToDigit(b);
            (read.Some? && hi.Some? && lo.Some? && read.value + [hi.value * 16 + lo.value] == bytes + [x]) <==>
            lower + [LowerAscii(a), LowerAscii(b)] == printed + [HexDigit(x / 16), HexDigit(x % 16)]
  {
    var hi, lo := ToDigit(a), ToDigit(b);
    SameDigit(a, x / 16);
    SameDigit(b, x % 16);
    SplitPair(lower, printed, LowerAscii(a), HexDigit(x / 16), LowerAscii(b), HexDigit(x % 16));
    if read.Some? && hi.Some? && lo.Some? {
      SplitLast(read.value, bytes, hi.value * 16 + lo.value, x);
      Nibbles(hi.value, lo.value, x);
    }
  }

  lemma HexOfPair(front: string, a: char, b: char, bytes: seq<u8>, x: u8)
    requires |front| == 2 * |bytes|
    requires Pairs(front) == Some(bytes) <==> ToAsciiLowercase(front) == Hex(bytes)
    ensures Pairs(front + [a, b]) == Some(bytes + [x])
       <==> ToAsciiLowercase(front + [a, b]) == Hex(bytes + [x])
  {
    PairsUnfold(front, a, b);
    LowerOfPair(front, a, b);
    HexSnoc(bytes, x);
    PairAgrees(Pairs(front), bytes, ToAsciiLowercase(front), Hex(bytes), a, b, x);
  }

  lemma SameDigit(c: char, d: int)
    requires 0 <= d < 16
    ensures ToDigit(c) == Some(d) <==> LowerAscii(c) == HexDigit(d)
  {
  }

  lemma DigitsInvertPrinter(s: string, bytes: seq<u8>)
    ensures DecodeHex(s) == Some(bytes) <==> bytes != [] && ToAsciiLowercase(Digits(s)) == Hex(bytes)
  {
    var d := Digits(s);
    if |d| == 2 * |bytes| {
      HexOfPairs(d, bytes);
    }
  }

  /** A text made of whitespace, perhaps a prefix, the digits of these bytes in either case, and whitespace. */
  ghost predicate Spells(s: string, bytes: seq<u8>) {
    exists before, prefix, digits, after :: SpelledBy(s, bytes, before, prefix, digits, after)
  }

  predicate SpelledBy(s: string, bytes: seq<u8>, before: string, prefix: string, digits: string, after: string) {
    && s == before + (prefix + digits) + after && Blank(before) && Blank(after)
    && IsPrefix(prefix) && ToAsciiLowercase(digits) == Hex(bytes)
  }

  lemma LowerIsDigit(c: char)
    requires ToDigit(LowerAscii(c)).Some?
    ensures ToDigit(c).Some? && !IsWhitespace(c) && c != 'x' && c != 'X'
  {
  }

  predicate PlainDigits(digits: string) {
    forall i :: 0 <= i < |digits| ==> !IsWhitespace(digits[i]) && digits[i] != 'x' && digits[i] != 'X'
  }

  lemma SpellingIsPlain(digits: string, bytes: seq<u8>)
    requires ToAsciiLowercase(digits) == Hex(bytes)
    ensures |digits| == 2 * |bytes| && PlainDigits(digits)
  {
    forall i | 0 <= i < |digits| ensures !IsWhitespace(digits[i]) && digits[i] != 'x' && digits[i] != 'X' {
      assert ToAsciiLowercase(digits)[i] == Hex(bytes)[i];
      LowerIsDigit(digits[i]);
    }
  }

  predicate IsPrefix(prefix: string) {
    prefix == "" || prefix == "0x" || prefix == "0X"
  }

  lemma PrefixComesOff(prefix: string, digits: string)
    requires IsPrefix(prefix) && PlainDigits(digits)
    ensures StripPrefix(prefix + digits) == digits && (digits != "" ==> Tight(prefix + digits))
  {
    if prefix == "" {
      assert prefix + digits == digits;
    } else {
      assert (prefix + digits)[2..] == digits;
    }
    assert |digits| >= 2 ==> digits[1] != 'x' && digits[1] != 'X';
    assert digits != "" ==> !IsWhitespace(digits[0]) && !IsWhitespace(digits[|digits| - 1]);
  }

  lemma DigitsOfSpelling(s: string, bytes: seq<u8>, before: string, prefix: string, digits: string, after: string)
    requires SpelledBy(s, bytes, before, prefix, digits, after) && bytes != []
    ensures Digits(s) == digits
  {
    SpellingIsPlain(digits, bytes);
    PrefixComesOff(prefix, digits);
    TrimOf(before, prefix + digits, after);
  }

  lemma StripPrefixTakes(s: string) returns (prefix: string)
    ensures IsPrefix(prefix) && s == prefix + StripPrefix(s)
  {
    prefix := if "0x" <= s || "0X" <= s then s[..2] else "";
  }

  /** Conversely, what the parser reads as given bytes is exactly what spells them. */
  lemma ParserInvertsPrinter(s: string, bytes: seq<u8>)
    ensures DecodeHex(s) == Some(bytes) <==> bytes != [] && Spells(s, bytes)
  {
    DigitsInvertPrinter(s, bytes);
    if bytes != [] && Spells(s, bytes) {
      var before, prefix, digits, after :| SpelledBy(s, bytes, before, prefix, digits, after);
      DigitsOfSpelling(s, bytes, before, prefix, digits, after);
    }
    if DecodeHex(s) == Some(bytes) {
      var before, after := TrimTakes(s);
      var prefix := StripPrefixTakes(Trim(s));
      assert SpelledBy(s, bytes, before, prefix, Digits(s), after);
    }
  }

  /** The digits of a print, two for each byte. */
  lemma {:induction false} HexAt(bytes: seq<u8>, i: nat)
    requires i < |bytes|
    ensures Hex(bytes)[2 * i] == "0123456789abcdef"[bytes[i] / 16]
    ensures Hex(bytes)[2 * i + 1] == "0123456789abcdef"[bytes[i] % 16]
  {
    if i < |bytes| - 1 {
      HexAt(bytes[..|bytes| - 1], i);
    }
  }

  // ---------------------------------------------------------------------------
  // Verdicts
  // ---------------------------------------------------------------------------

  /** The error that a text spells, if it spells bytes that decode to one. */
  function ErrorIn(rules: Interpreter, text: string): Option<TransactionError> {
    match DecodeHex(text)
    case None => None
    case Some(bytes) => rules.decode(bytes)
  }

  /** The verdict on an error on the chain, or on one that cannot be read. */
  predicate OnChainVerdict(error: Option<TransactionError>, c: Classification) {
    && (c.kind == ExpiredBlockhash <==> error == Some(BlockhashNotFound))
    && (c.kind == ComputeExceeded <==>
          error.Some? && (error.value.ComputationalBudgetExceeded? || error.value.MaxLoadedAccountsDataSizeExceeded?))
    && (c.kind == BundleFailure <==> error.None? || error.value.OtherError?)
    && (c.confidence == Certain <==> error.Some? && !error.value.OtherError?)
    && (c.confidence == Likely <==> error.Some? && error.value.OtherError?)
    && (c.confidence == Ambiguous([]) <==> error.None?)
  }

  lemma OnChainVerdicts(rules: Interpreter, text: string, slot: u64)
    ensures OnChainVerdict(ErrorIn(rules, text), Classify(rules, OnChainError(text, slot)))
  {
  }

  /** So one on-chain error gets one verdict, whether the stream or reconcile reported it, and which one
      depends on what its bytes decode to. */
  lemma OneVerdictPerError(rules: Interpreter, bytes: seq<u8>, slot: u64, slot': u64)
    ensures Classify(rules, OnChainError("0x" + Hex(bytes), slot)) == Classify(rules, OnChainError(Hex(bytes), slot'))
    ensures OnChainVerdict(if bytes == [] then None else rules.decode(bytes),
                           Classify(rules, OnChainError(Hex(bytes), slot)))
  {
    PrintersInvertParser(bytes);
    OnChainVerdicts(rules, Hex(bytes), slot);
  }

  /** The Jito status polled last says this, in any case and with any space around it. */
  predicate Says(status: Option<string>, word: string) {
    status.Some? && ToAsciiLowercase(Trim(status.value)) == word
  }

  /** The verdict on a bundle that never landed: a hash too old when it was submitted, then a tip below the
      median, then a lost auction, as certain as the last Jito status makes it. */
  predicate NeverLandedVerdict(submitted: u64, fetched: u64, tip: u64, p50: Option<u64>, status: Option<string>,
                               c: Classification)
  {
    var expired, outbid := submitted > fetched + 150, p50.Some? && tip < p50.value;
    && c.kind == (if expired then ExpiredBlockhash else if outbid then FeeTooLow else AuctionLost)
    && c.confidence == (
         if expired then Certain
         else if outbid then Likely
         else if Says(status, "invalid") then Certain
         else if Says(status, "failed") then Likely
         else Ambiguous([BundleFailure]))
  }

  lemma NeverLandedVerdicts(rules: Interpreter, submitted: u64, fetched: u64, last: u64, tip: u64, p50: Option<u64>,
                            p75: Option<u64>, status: Option<string>)
    ensures var evidence := NeverLanded(submitted, fetched, last, tip, p50, p75, FromStatusStr(status));
            NeverLandedVerdict(submitted, fetched, tip, p50, status, Classify(rules, evidence))
  {
  }
}
