/**
 * The two text passes applied to every decoded candidate in `ensure_utf8_csv`:
 * newline normalisation (CRLF, then any lone CR, becomes LF) and control-character
 * scrubbing (every character below code point 32 other than LF and TAB becomes a space).
 */
module TextCleanup {

  /** `gsub("\r\n", "\n")`: a left-to-right scan that turns each CRLF pair into one LF. */
  function ReplaceCrlf(s: string): string
    decreases |s|
  {
    if |s| >= 2 && s[0] == '\r' && s[1] == '\n' then "\n" + ReplaceCrlf(s[2..])
    else if s == [] then ""
    else [s[0]] + ReplaceCrlf(s[1..])
  }

  /** `gsub("\r", "\n")`: every remaining CR becomes LF. */
  function ReplaceCr(s: string): string {
    seq(|s|, i requires 0 <= i < |s| => if s[i] == '\r' then '\n' else s[i])
  }

  /** Both newline passes, in the order the source applies them. */
  function NormalizeNewlines(s: string): (r: string)
    ensures '\r' !in r
    ensures |r| <= |s|
  {
    ReplaceCrlfShrinks(s);
    ReplaceCr(ReplaceCrlf(s))
  }

  /** The characters the scrubbing pass keeps: LF, TAB, or code point 32 and above. */
  predicate Allowed(c: char) {
    c == '\n' || c == '\t' || c as int >= 32
  }

  /** `chars.map { ... }.join`: a disallowed character becomes a space, every other one stays. */
  function Scrub(s: string): (r: string)
    ensures |r| == |s|
    ensures forall i :: 0 <= i < |r| ==> Allowed(r[i])
    ensures forall i :: 0 <= i < |s| && Allowed(s[i]) ==> r[i] == s[i]
    ensures forall i :: 0 <= i < |s| && !Allowed(s[i]) ==> r[i] == ' '
  {
    seq(|s|, i requires 0 <= i < |s| => if Allowed(s[i]) then s[i] else ' ')
  }

  /** What a decoded candidate goes through before it is parsed. */
  function Clean(s: string): (r: string)
    ensures '\r' !in r
    ensures forall i :: 0 <= i < |r| ==> Allowed(r[i])
  {
    Scrub(NormalizeNewlines(s))
  }

  lemma {:induction false} ReplaceCrlfShrinks(s: string)
    ensures |ReplaceCrlf(s)| <= |s|
    decreases |s|
  {
    if |s| >= 2 && s[0] == '\r' && s[1] == '\n' {
      ReplaceCrlfShrinks(s[2..]);
    } else if s != [] {
      ReplaceCrlfShrinks(s[1..]);
    }
  }

  lemma ReplaceCrAppend(a: string, b: string)
    ensures ReplaceCr(a + b) == ReplaceCr(a) + ReplaceCr(b)
  {
    assert forall i :: 0 <= i < |a + b| ==> ReplaceCr(a + b)[i] == (ReplaceCr(a) + ReplaceCr(b))[i];
  }

  /** How the CRLF scan unfolds on a non-empty text: the first step it takes. */
  lemma ReplaceCrlfStep(s: string)
    requires s != []
    ensures |s| >= 2 && s[0] == '\r' && s[1] == '\n' ==> ReplaceCrlf(s) == "\n" + ReplaceCrlf(s[2..])
    ensures !(|s| >= 2 && s[0] == '\r' && s[1] == '\n') ==> ReplaceCrlf(s) == [s[0]] + ReplaceCrlf(s[1..])
  {
  }

  /** The CRLF scan never lets a pair straddle the boundary in front of an explicit CRLF. */
  lemma {:induction false} ReplaceCrlfAtCrlf(a: string, b: string)
    ensures ReplaceCrlf(a + "\r\n" + b) == ReplaceCrlf(a) + "\n" + ReplaceCrlf(b)
    decreases |a|
  {
    var x := a + "\r\n" + b;
    ReplaceCrlfStep(x);
    if a == [] {
      assert x == "\r\n" + b && x[2..] == b;
    } else {
      ReplaceCrlfStep(a);
      var k := if |a| >= 2 && a[0] == '\r' && a[1] == '\n' then 2 else 1;
      var head := if k == 2 then "\n" else [a[0]];
      assert ReplaceCrlf(a) == head + ReplaceCrlf(a[k..]);
      assert k == 2 ==> x[0] == '\r' && x[1] == '\n';
      assert k == 1 && |a| == 1 ==> x[1] == '\r';
      assert k == 1 && |a| >= 2 ==> x[0] == a[0] && x[1] == a[1];
      assert x[k..] == a[k..] + "\r\n" + b;
      assert ReplaceCrlf(x) == head + ReplaceCrlf(a[k..] + "\r\n" + b);
      ReplaceCrlfAtCrlf(a[k..], b);
      ConcatRegroup(head, ReplaceCrlf(a[k..]), "\n", ReplaceCrlf(b));
    }
  }

  /** A CR that is not followed by LF passes the CRLF scan untouched. */
  lemma {:induction false} ReplaceCrlfAtLoneCr(a: string, b: string)
    requires b == [] || b[0] != '\n'
    ensures ReplaceCrlf(a + "\r" + b) == ReplaceCrlf(a) + "\r" + ReplaceCrlf(b)
    decreases |a|
  {
    var x := a + "\r" + b;
    ReplaceCrlfStep(x);
    if a == [] {
      assert x == "\r" + b && x[1..] == b;
      assert !(|x| >= 2 && x[1] == '\n');
    } else {
      ReplaceCrlfStep(a);
      var k := if |a| >= 2 && a[0] == '\r' && a[1] == '\n' then 2 else 1;
      var head := if k == 2 then "\n" else [a[0]];
      assert ReplaceCrlf(a) == head + ReplaceCrlf(a[k..]);
      assert k == 2 ==> x[0] == '\r' && x[1] == '\n';
      assert k == 1 && |a| == 1 ==> x[1] == '\r';
      assert k == 1 && |a| >= 2 ==> x[0] == a[0] && x[1] == a[1];
      assert x[k..] == a[k..] + "\r" + b;
      assert ReplaceCrlf(x) == head + ReplaceCrlf(a[k..] + "\r" + b);
      ReplaceCrlfAtLoneCr(a[k..], b);
      ConcatRegroup(head, ReplaceCrlf(a[k..]), "\r", ReplaceCrlf(b));
    }
  }

  lemma ConcatRegroup(h: string, u: string, m: string, v: string)
    ensures h + (u + m + v) == (h + u) + m + v
  {
  }

  lemma {:induction false} ReplaceCrlfKeepsCrFree(s: string)
    requires '\r' !in s
    ensures ReplaceCrlf(s) == s
    decreases |s|
  {
    if s != [] {
      assert s[0] != '\r';
      assert '\r' !in s[1..] by { assert forall c :: c in s[1..] ==> c in s; }
      ReplaceCrlfKeepsCrFree(s[1..]);
    }
  }

  /** Each CRLF becomes exactly one LF, and the text on either side is normalised on its own. */
  lemma NormalizeCrlf(a: string, b: string)
    ensures NormalizeNewlines(a + "\r\n" + b) == NormalizeNewlines(a) + "\n" + NormalizeNewlines(b)
  {
    ReplaceCrlfAtCrlf(a, b);
    ReplaceCrAppend(ReplaceCrlf(a) + "\n", ReplaceCrlf(b));
    ReplaceCrAppend(ReplaceCrlf(a), "\n");
  }

  /** A lone CR (one not followed by LF) becomes exactly one LF. */
  lemma NormalizeLoneCr(a: string, b: string)
    requires b == [] || b[0] != '\n'
    ensures NormalizeNewlines(a + "\r" + b) == NormalizeNewlines(a) + "\n" + NormalizeNewlines(b)
  {
    ReplaceCrlfAtLoneCr(a, b);
    ReplaceCrAppend(ReplaceCrlf(a) + "\r", ReplaceCrlf(b));
    ReplaceCrAppend(ReplaceCrlf(a), "\r");
  }

  /** Text without CR is left exactly as it was. */
  lemma NormalizeKeepsCrFree(s: string)
    requires '\r' !in s
    ensures NormalizeNewlines(s) == s
  {
    ReplaceCrlfKeepsCrFree(s);
  }

  /** Newline normalisation is idempotent. */
  lemma NormalizeIdempotent(s: string)
    ensures NormalizeNewlines(NormalizeNewlines(s)) == NormalizeNewlines(s)
  {
    NormalizeKeepsCrFree(NormalizeNewlines(s));
  }

  /** Scrubbing is idempotent. */
  lemma ScrubIdempotent(s: string)
    ensures Scrub(Scrub(s)) == Scrub(s)
  {
  }

  /** Cleaning is idempotent: a cleaned text has no CR and only allowed characters. */
  lemma CleanIdempotent(s: string)
    ensures Clean(Clean(s)) == Clean(s)
  {
    var c := Clean(s);
    NormalizeKeepsCrFree(c);
    assert Scrub(c) == c;
  }
}
