/**
 * The restricted numeric grammar shared by every textual number the importers read:
 *
 *     literal ::= [ '+' | '-' ] digit+ [ '.' digit+ ]
 *
 * Python's `int(...)`, `float(...)`, `decimal.Decimal(...)` and `pandas.to_numeric(...)` all
 * accept this language (and more; see README). A parsed literal remembers its sign character,
 * its whole-part digits and its fraction digits, so that rendering it gives back the text.
 */
module Numeric {
  import opened Wrappers

  predicate IsDigit(c: char) {
    '0' <= c <= '9'
  }

  predicate AllDigits(s: string) {
    forall i :: 0 <= i < |s| ==> IsDigit(s[i])
  }

  function DigitValue(c: char): (v: nat)
    requires IsDigit(c)
    ensures v < 10
  {
    (c as int) - ('0' as int)
  }

  function Pow10(n: nat): (p: nat)
    ensures p >= 1
  {
    if n == 0 then 1 else 10 * Pow10(n - 1)
  }

  /** `w` followed by `n` zero digits, that is w * 10^n. */
  function Scaled(w: nat, n: nat): (v: nat)
    ensures n == 0 ==> v == w
  {
    if n == 0 then w else 10 * Scaled(w, n - 1)
  }

  /** The value of a digit string, most significant digit first; it fits in |s| digits. */
  function DigitsValue(s: string): (v: nat)
    requires AllDigits(s)
    ensures v < Pow10(|s|)
  {
    if s == [] then 0 else DigitsValue(s[..|s| - 1]) * 10 + DigitValue(s[|s| - 1])
  }

  /** Position of the first `c` in `s`, or |s| when there is none. */
  function IndexOf(s: string, c: char): (k: nat)
    ensures k <= |s|
    ensures k < |s| ==> s[k] == c
    ensures forall i :: 0 <= i < k ==> s[i] != c
  {
    if s == [] then 0 else if s[0] == c then 0 else 1 + IndexOf(s[1..], c)
  }

  datatype Sign = NoSign | Plus | Minus

  /** A literal of the grammar above. An empty `fraction` means the text had no '.'. */
  datatype Literal = Literal(sign: Sign, whole: string, fraction: string)

  predicate WellFormed(l: Literal) {
    l.whole != [] && AllDigits(l.whole) && AllDigits(l.fraction)
  }

  function SignText(sign: Sign): string {
    match sign
    case NoSign => ""
    case Plus => "+"
    case Minus => "-"
  }

  function SignOf(s: string): Sign {
    if |s| > 0 && s[0] == '-' then Minus
    else if |s| > 0 && s[0] == '+' then Plus
    else NoSign
  }

  function Unsigned(s: string): string {
    if SignOf(s) == NoSign then s else s[1..]
  }

  /** The text of a literal. */
  function Render(l: Literal): string {
    SignText(l.sign) + l.whole + (if l.fraction == [] then "" else "." + l.fraction)
  }

  /** Recognises the grammar; `None` for any other text (including the empty string). */
  function ParseLiteral(s: string): (r: Option<Literal>)
    ensures r.Some? ==> WellFormed(r.value)
  {
    var body := Unsigned(s);
    var dot := IndexOf(body, '.');
    var whole := body[..dot];
    var fraction := if dot < |body| then body[dot + 1..] else "";
    if whole != [] && AllDigits(whole) && AllDigits(fraction) && (dot < |body| ==> fraction != [])
    then Some(Literal(SignOf(s), whole, fraction))
    else None
  }

  /** The literal's integer part with its sign: what truncation toward zero gives. */
  function TruncatedValue(l: Literal): int
    requires WellFormed(l)
  {
    if l.sign == Minus then -(DigitsValue(l.whole) as int) else DigitsValue(l.whole)
  }

  /**
   * Python's `int(text)` on a string: the grammar without a fraction part. `"5.0"` is not
   * an integer literal (Python raises `ValueError`).
   */
  function ParseInt(s: string): (r: Option<int>)
    ensures r.Some? <==> ParseLiteral(s).Some? && ParseLiteral(s).value.fraction == []
  {
    match ParseLiteral(s)
    case Some(l) => if l.fraction == [] then Some(TruncatedValue(l)) else None
    case None => None
  }

  // ---------------------------------------------------------------------------------------
  // Lemmas

  lemma AllDigitsAppend(a: string, b: string)
    requires AllDigits(a) && AllDigits(b)
    ensures AllDigits(a + b)
  {
    forall i | 0 <= i < |a + b| ensures IsDigit((a + b)[i]) {
      if i < |a| { assert (a + b)[i] == a[i]; } else { assert (a + b)[i] == b[i - |a|]; }
    }
  }

  /** A digit string followed by another: the first one is shifted by the second's length. */
  lemma {:induction false} DigitsValueAppend(a: string, b: string)
    requires AllDigits(a) && AllDigits(b)
    ensures AllDigits(a + b)
    ensures DigitsValue(a + b) == Scaled(DigitsValue(a), |b|) + DigitsValue(b)
  {
    AllDigitsAppend(a, b);
    if b == [] {
      assert a + b == a;
    } else {
      var b' := b[..|b| - 1];
      assert (a + b)[..|a + b| - 1] == a + b';
      assert (a + b)[|a + b| - 1] == b[|b| - 1];
      assert AllDigits(b');
      DigitsValueAppend(a, b');
    }
  }

  /** One more unit at scale n is worth 10^n. */
  lemma {:induction false} ScaledSucc(w: nat, n: nat)
    ensures Scaled(w + 1, n) == Scaled(w, n) + Pow10(n)
  {
    if n > 0 {
      ScaledSucc(w, n - 1);
    }
  }

  lemma {:induction false} IndexOfAfterDigits(a: string, b: string)
    requires AllDigits(a)
    ensures IndexOf(a + b, '.') == |a| + IndexOf(b, '.')
  {
    if a != [] {
      assert (a + b)[0] == a[0];
      assert (a + b)[1..] == a[1..] + b;
      IndexOfAfterDigits(a[1..], b);
    } else {
      assert a + b == b;
    }
  }

  lemma {:induction false} SignSplits(sign: Sign, rest: string)
    requires rest != [] && IsDigit(rest[0])
    ensures SignOf(SignText(sign) + rest) == sign
    ensures Unsigned(SignText(sign) + rest) == rest
  {
    var s := SignText(sign) + rest;
    if sign == NoSign {
      assert s == rest;
    } else {
      assert s[0] == SignText(sign)[0];
      assert s[1..] == rest;
    }
  }

  /** The unsigned part of a rendering splits at its first '.' into the two digit strings. */
  lemma {:induction false} BodySplits(l: Literal)
    requires WellFormed(l)
    ensures var body := l.whole + (if l.fraction == [] then "" else "." + l.fraction);
      var dot := IndexOf(body, '.');
      && dot == |l.whole|
      && body[..dot] == l.whole
      && (if dot < |body| then body[dot + 1..] else "") == l.fraction
      && (dot < |body| <==> l.fraction != [])
  {
    var tail := if l.fraction == [] then "" else "." + l.fraction;
    var body := l.whole + tail;
    IndexOfAfterDigits(l.whole, tail);
    assert body[..|l.whole|] == l.whole;
    if l.fraction != [] {
      assert tail[0] == '.';
      assert body[|l.whole| + 1..] == l.fraction;
    }
  }

  /** Rendering a well-formed literal and parsing the text gives the literal back. */
  lemma {:induction false} RenderParses(l: Literal)
    requires WellFormed(l)
    ensures ParseLiteral(Render(l)) == Some(l)
  {
    var body := l.whole + (if l.fraction == [] then "" else "." + l.fraction);
    assert Render(l) == SignText(l.sign) + body;
    SignSplits(l.sign, body);
    BodySplits(l);
  }

  lemma SignJoins(s: string)
    ensures s == SignText(SignOf(s)) + Unsigned(s)
  {
    if SignOf(s) != NoSign {
      assert s == [s[0]] + s[1..];
    }
  }

  lemma ParsedParts(s: string)
    requires ParseLiteral(s).Some?
    ensures var l, body := ParseLiteral(s).value, Unsigned(s);
      var dot := IndexOf(body, '.');
      && l.sign == SignOf(s)
      && l.whole == body[..dot]
      && (dot < |body| ==> l.fraction == body[dot + 1..] && l.fraction != [])
      && (dot == |body| ==> l.fraction == [])
  {
  }

  lemma SplitAtDot(body: string, dot: nat)
    requires dot <= |body|
    requires dot < |body| ==> body[dot] == '.'
    ensures dot < |body| ==> body == body[..dot] + "." + body[dot + 1..]
    ensures dot == |body| ==> body == body[..dot]
  {
    if dot < |body| {
      assert body == body[..dot] + body[dot..];
      assert body[dot..] == "." + body[dot + 1..];
    }
  }

  lemma {:induction false} BodyRejoins(s: string)
    requires ParseLiteral(s).Some?
    ensures var l := ParseLiteral(s).value;
      l.whole + (if l.fraction == [] then "" else "." + l.fraction) == Unsigned(s)
  {
    ParsedParts(s);
    SplitAtDot(Unsigned(s), IndexOf(Unsigned(s), '.'));
  }

  lemma {:induction false} RenderFromParts(s: string, l: Literal, body: string)
    requires l.whole + (if l.fraction == [] then "" else "." + l.fraction) == body
    requires s == SignText(l.sign) + body
    ensures Render(l) == s
  {
    assert Render(l) == SignText(l.sign) + (l.whole + (if l.fraction == [] then "" else "." + l.fraction));
  }

  /** A parsed text is exactly the rendering of its literal: nothing is dropped or added. */
  lemma {:induction false} ParseRendersBack(s: string)
    requires ParseLiteral(s).Some?
    ensures Render(ParseLiteral(s).value) == s
  {
    BodyRejoins(s);
    SignJoins(s);
    RenderFromParts(s, ParseLiteral(s).value, Unsigned(s));
  }
}
