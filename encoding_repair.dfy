/**
 * `ensure_utf8_csv`: the recovery chain that turns an unreliable CSV file into one that parses.
 * Transcoding, CSV parsing and the last-resort decode are library calls and enter the model as
 * function-typed parameters; the file's existence and the first read's outcome are inputs.
 */
module EncodingRepair {
  import opened Wrappers
  import opened TextCleanup

  type Bytes = seq<bv8>

  /** The candidate encodings the chain tries. */
  datatype Encoding = Utf8 | Windows1252 | Iso88591 | Ascii

  /** The order of `encodings_to_try`. */
  const Candidates: seq<Encoding> := [Utf8, Windows1252, Iso88591, Ascii]

  /**
   * What a CSV read does: it succeeds, raises an error the surrounding `rescue` lists, or raises
   * anything else, which nothing in `ensure_utf8_csv` catches.
   */
  datatype ParseOutcome = Parsed | Rejected | Raised

  /**
   * Where the chain ends. `Original` is the input path; `Cleaned` is the side file written for the
   * accepted encoding, with its text; `Fallback` is the last-resort file with its text;
   * `Missing` is the abort for a missing file; `Crashed` is an exception nothing rescues.
   */
  datatype Repair = Missing | Original | Cleaned(encoding: Encoding, text: string) | Fallback(text: string) | Crashed

  /** One candidate's attempt, as seen from the chain: go on, accept a text, or die. */
  datatype Attempt = Skip | Accept(text: string) | Abort

  /**
   * Decoding `raw` as `enc` (`transcode` yields `None` when the conversion raises one of the
   * rescued encoding errors), cleaning the text, and parsing it.
   */
  function TryEncoding(enc: Encoding, raw: Bytes, transcode: (Encoding, Bytes) -> Option<string>,
                       parse: string -> ParseOutcome): Attempt
  {
    match transcode(enc, raw)
    case None => Skip
    case Some(decoded) =>
      var text := Clean(decoded);
      match parse(text)
      case Parsed => Accept(text)
      case Rejected => Skip
      case Raised => Abort
  }

  /** The last resort: decode without a parse check, normalise newlines (no scrubbing), accept. */
  function LastResort(raw: Bytes, fallback: Bytes -> Option<string>): Repair {
    match fallback(raw)
    case None => Crashed
    case Some(decoded) => Fallback(NormalizeNewlines(decoded))
  }

  /** What a decisive attempt on `enc` makes of the chain. */
  function Decide(enc: Encoding, a: Attempt): Repair {
    match a
    case Accept(text) => Cleaned(enc, text)
    case _ => Crashed
  }

  /** The chain over the encodings still to try, ending in the last resort. */
  function TryFrom(encs: seq<Encoding>, raw: Bytes, transcode: (Encoding, Bytes) -> Option<string>,
                   parse: string -> ParseOutcome, fallback: Bytes -> Option<string>): Repair
    decreases |encs|
  {
    if encs == [] then LastResort(raw, fallback)
    else
      var a := TryEncoding(encs[0], raw, transcode, parse);
      if a.Skip? then TryFrom(encs[1..], raw, transcode, parse, fallback)
      else Decide(encs[0], a)
  }

  /** `ensure_utf8_csv`: the fast path, then the candidates in order with an early return. */
  method EnsureUtf8Csv(fileExists: bool, initial: ParseOutcome, raw: Bytes,
                       transcode: (Encoding, Bytes) -> Option<string>,
                       parse: string -> ParseOutcome, fallback: Bytes -> Option<string>)
    returns (r: Repair)
    ensures !fileExists ==> r == Missing
    ensures fileExists && initial == Parsed ==> r == Original
    ensures fileExists && initial == Raised ==> r == Crashed
    ensures fileExists && initial == Rejected ==> r == TryFrom(Candidates, raw, transcode, parse, fallback)
  {
    if !fileExists {
      return Missing;
    }
    match initial {
      case Parsed => return Original;
      case Raised => return Crashed;
      case Rejected =>
    }
    var encodings := Candidates;
    var i := 0;
    while i < |encodings|
      invariant 0 <= i <= |encodings|
      invariant TryFrom(encodings[i..], raw, transcode, parse, fallback)
             == TryFrom(Candidates, raw, transcode, parse, fallback)
    {
      var enc := encodings[i];
      var decoded := transcode(enc, raw);
      if decoded.Some? {
        var text := Clean(decoded.value);
        var outcome := parse(text);
        if outcome == Parsed {
          return Cleaned(enc, text);
        } else if outcome == Raised {
          return Crashed;
        }
      }
      assert encodings[i..][1..] == encodings[i + 1..];
      i := i + 1;
    }
    var last := fallback(raw);
    if last.None? {
      return Crashed;
    }
    return Fallback(NormalizeNewlines(last.value));
  }

  /**
   * The first candidate whose attempt is decisive decides the chain: its cleaned text is
   * accepted under its name, or its unrescued error ends the run.
   */
  lemma {:induction false} FirstDecisiveWins(encs: seq<Encoding>, i: nat, raw: Bytes,
                                             transcode: (Encoding, Bytes) -> Option<string>,
                                             parse: string -> ParseOutcome, fallback: Bytes -> Option<string>)
    requires i < |encs|
    requires !TryEncoding(encs[i], raw, transcode, parse).Skip?
    requires forall j :: 0 <= j < i ==> TryEncoding(encs[j], raw, transcode, parse).Skip?
    ensures TryFrom(encs, raw, transcode, parse, fallback) == Decide(encs[i], TryEncoding(encs[i], raw, transcode, parse))
    decreases i
  {
    if i > 0 {
      assert TryEncoding(encs[0], raw, transcode, parse).Skip?;
      assert forall j :: 0 <= j < i - 1 ==> encs[1..][j] == encs[j + 1];
      FirstDecisiveWins(encs[1..], i - 1, raw, transcode, parse, fallback);
    }
  }

  /** When every candidate is skipped, the chain ends in the last resort. */
  lemma {:induction false} AllSkippedFallsBack(encs: seq<Encoding>, raw: Bytes,
                                               transcode: (Encoding, Bytes) -> Option<string>,
                                               parse: string -> ParseOutcome, fallback: Bytes -> Option<string>)
    requires forall j :: 0 <= j < |encs| ==> TryEncoding(encs[j], raw, transcode, parse).Skip?
    ensures TryFrom(encs, raw, transcode, parse, fallback) == LastResort(raw, fallback)
    decreases |encs|
  {
    if encs != [] {
      assert forall j :: 0 <= j < |encs| - 1 ==> encs[1..][j] == encs[j + 1];
      AllSkippedFallsBack(encs[1..], raw, transcode, parse, fallback);
    }
  }

  /**
   * An accepted candidate's text is the cleaned decoding of the raw bytes under that candidate,
   * it parsed, it has no CR, and every character in it is LF, TAB or at least code point 32.
   */
  lemma {:induction false} CleanedTextIsWellFormed(encs: seq<Encoding>, raw: Bytes,
                                                   transcode: (Encoding, Bytes) -> Option<string>,
                                                   parse: string -> ParseOutcome, fallback: Bytes -> Option<string>)
    ensures var r := TryFrom(encs, raw, transcode, parse, fallback);
            r.Cleaned? ==>
              && r.encoding in encs
              && transcode(r.encoding, raw).Some?
              && r.text == Clean(transcode(r.encoding, raw).value)
              && parse(r.text) == Parsed
              && '\r' !in r.text
              && (forall k :: 0 <= k < |r.text| ==> Allowed(r.text[k]))
    decreases |encs|
  {
    if encs != [] && TryEncoding(encs[0], raw, transcode, parse).Skip? {
      CleanedTextIsWellFormed(encs[1..], raw, transcode, parse, fallback);
      var r := TryFrom(encs[1..], raw, transcode, parse, fallback);
      if r.Cleaned? {
        assert r.encoding in encs;
      }
    }
  }

  /** The last-resort text, when there is one, has no CR (it is not scrubbed). */
  lemma {:induction false} FallbackTextHasNoCr(encs: seq<Encoding>, raw: Bytes,
                                               transcode: (Encoding, Bytes) -> Option<string>,
                                               parse: string -> ParseOutcome, fallback: Bytes -> Option<string>)
    ensures var r := TryFrom(encs, raw, transcode, parse, fallback);
            r.Fallback? ==>
              && (forall j :: 0 <= j < |encs| ==> TryEncoding(encs[j], raw, transcode, parse).Skip?)
              && fallback(raw).Some?
              && r.text == NormalizeNewlines(fallback(raw).value)
              && '\r' !in r.text
    decreases |encs|
  {
    if encs != [] && TryEncoding(encs[0], raw, transcode, parse).Skip? {
      FallbackTextHasNoCr(encs[1..], raw, transcode, parse, fallback);
      var r := TryFrom(encs[1..], raw, transcode, parse, fallback);
      if r.Fallback? {
        forall j | 0 <= j < |encs| ensures TryEncoding(encs[j], raw, transcode, parse).Skip? {
          if j > 0 { assert encs[j] == encs[1..][j - 1]; }
        }
      }
    }
  }

  /**
   * `raw.decode(...)` as written: Ruby's String has no `decode` method, so the call raises
   * NoMethodError whatever the bytes are.
   */
  function MissingDecode(raw: Bytes): Option<string> {
    None
  }

  /**
   * As written, a file whose first read is rejected and whose four candidates all fail to parse
   * ends the run with an exception instead of the promised last-resort file.
   */
  lemma FallbackAsWrittenRaises(raw: Bytes, transcode: (Encoding, Bytes) -> Option<string>,
                                parse: string -> ParseOutcome)
    requires forall j :: 0 <= j < |Candidates| ==> TryEncoding(Candidates[j], raw, transcode, parse).Skip?
    ensures TryFrom(Candidates, raw, transcode, parse, MissingDecode) == Crashed
  {
    AllSkippedFallsBack(Candidates, raw, transcode, parse, MissingDecode);
  }

  /**
   * The evidently intended last step, `encode('UTF-8', invalid: :replace, undef: :replace)`,
   * replaces what it cannot convert and never raises. With a decoder of that kind, and parses that
   * raise nothing unrescued, the chain never crashes; it falls back exactly when every candidate
   * is skipped, and then accepts the newline-normalised decoding.
   */
  lemma {:induction false} FallbackWithTotalDecodeAccepts(encs: seq<Encoding>, raw: Bytes,
                                                          transcode: (Encoding, Bytes) -> Option<string>,
                                                          parse: string -> ParseOutcome,
                                                          fallback: Bytes -> Option<string>)
    requires forall b :: fallback(b).Some?
    requires forall t :: parse(t) != Raised
    ensures var r := TryFrom(encs, raw, transcode, parse, fallback);
            && r != Crashed
            && (r.Fallback? <==> forall j :: 0 <= j < |encs| ==> TryEncoding(encs[j], raw, transcode, parse).Skip?)
            && (r.Fallback? ==> r.text == NormalizeNewlines(fallback(raw).value))
    decreases |encs|
  {
    if encs != [] {
      FallbackWithTotalDecodeAccepts(encs[1..], raw, transcode, parse, fallback);
      assert forall j :: 0 <= j < |encs| - 1 ==> encs[1..][j] == encs[j + 1];
    }
  }
}
