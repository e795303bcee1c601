/** `_parse_numeric_state`: strip a gateway state string down to the characters
    of a number, then convert what is left the way Python's `float()` does. */
module NumericState {
  import opened Options
  import opened Subsequences

  // ---------------------------------------------------------------------------
  // The values a state can hold

  /** A JSON value as the gateway reports it in an item's `state`: `null`, a
      string, or a non-string scalar (a number or a boolean). */
  datatype Value = NullValue | Text(s: string) | Scalar

  /** What reading `native_value` yields: a number, `None`, or a `TypeError`
      escaping from the character scan. */
  datatype Reading = Num(value: real) | NoValue | TypeError

  // ---------------------------------------------------------------------------
  // Cleaning

  /** `ch.isdigit()`, restricted to the ASCII digits. */
  predicate IsDigit(c: char) {
    '0' <= c <= '9'
  }

  /** The characters the cleaning step keeps: digits, `.` and `-`. */
  predicate IsKept(c: char) {
    IsDigit(c) || c == '.' || c == '-'
  }

  /** Keeps, in order, the characters of `s` that are digits, `.` or `-`. */
  function Clean(s: string): string {
    if s == [] then []
    else (if IsKept(s[0]) then [s[0]] else []) + Clean(s[1..])
  }

  /** Cleaning keeps exactly the kept characters of the state, each as often as
      it occurs there, in their original order, and nothing else. */
  lemma {:induction false} CleanKeepsExactly(s: string)
    ensures IsSubsequence(Clean(s), s)
    ensures forall c :: c in Clean(s) ==> IsKept(c)
    ensures forall c :: multiset(Clean(s))[c] == if IsKept(c) then multiset(s)[c] else 0
  {
    if s != [] {
      CleanKeepsExactly(s[1..]);
      assert s == [s[0]] + s[1..];
      assert multiset(s) == multiset([s[0]]) + multiset(s[1..]);
      if IsKept(s[0]) {
        assert Clean(s) == [s[0]] + Clean(s[1..]);
        assert Clean(s)[1..] == Clean(s[1..]);
      } else {
        assert Clean(s) == Clean(s[1..]);
        SubsequenceDropHead(Clean(s[1..]), s);
      }
    }
  }

  /** Cleaning distributes over concatenation. */
  lemma {:induction false} CleanAppend(a: string, b: string)
    ensures Clean(a + b) == Clean(a) + Clean(b)
  {
    if a != [] {
      assert (a + b)[1..] == a[1..] + b;
      CleanAppend(a[1..], b);
    } else {
      assert a + b == b;
    }
  }

  /** A cleaned string is left as it is by a second cleaning. */
  lemma {:induction false} CleanIdempotent(s: string)
    ensures Clean(Clean(s)) == Clean(s)
  {
    if s != [] {
      CleanIdempotent(s[1..]);
      var head := if IsKept(s[0]) then [s[0]] else [];
      CleanAppend(head, Clean(s[1..]));
      assert Clean(head) == head;
    }
  }

  // ---------------------------------------------------------------------------
  // The decimal literals `float()` accepts once a state has been cleaned

  /** A cleaned string contains no sign other than `-`, no exponent and no
      letters, so `float()` accepts it exactly when it is an optional `-`, then
      digits with at most one `.`, with at least one digit. */
  datatype Decimal = Decimal(negative: bool, whole: string, fraction: Option<string>)

  predicate AllDigits(s: string) {
    forall i :: 0 <= i < |s| ==> IsDigit(s[i])
  }

  function FractionDigits(d: Decimal): string {
    d.fraction.GetOr("")
  }

  /** A literal `float()` accepts: digits on both sides of the point, and at
      least one digit in all. */
  predicate WellFormed(d: Decimal) {
    AllDigits(d.whole) && AllDigits(FractionDigits(d)) && |d.whole| + |FractionDigits(d)| > 0
  }

  /** The text of a literal. */
  function Render(d: Decimal): string {
    (if d.negative then "-" else "") + d.whole
      + (if d.fraction.Some? then "." + d.fraction.value else "")
  }

  /** `float()` accepts the text `t`. */
  ghost predicate IsDecimalLiteral(t: string) {
    exists d :: WellFormed(d) && Render(d) == t
  }

  /** The number of leading digits of `s`. */
  function LeadingDigits(s: string): (n: nat)
    ensures n <= |s| && AllDigits(s[..n]) && (n < |s| ==> !IsDigit(s[n]))
  {
    if s == [] || !IsDigit(s[0]) then 0
    else
      var k := LeadingDigits(s[1..]);
      assert s[..k + 1] == [s[0]] + s[1..][..k];
      k + 1
  }

  /** Recognises a decimal literal: an optional `-`, leading digits, then
      either nothing or a `.` followed by digits only. */
  function ParseDecimal(s: string): (r: Option<Decimal>)
    ensures r.Some? ==> WellFormed(r.value) && Render(r.value) == s
  {
    var negative := |s| > 0 && s[0] == '-';
    var body := if negative then s[1..] else s;
    var n := LeadingDigits(body);
    var rest := body[n..];
    assert body == body[..n] + rest;
    if rest == [] then
      if n > 0 then Some(Decimal(negative, body[..n], None)) else None
    else if rest[0] == '.' && AllDigits(rest[1..]) && (n > 0 || |rest| > 1) then
      assert rest == "." + rest[1..];
      Some(Decimal(negative, body[..n], Some(rest[1..])))
    else None
  }

  /** Digits followed by something that does not start with a digit have
      exactly that many leading digits. */
  lemma {:induction false} LeadingDigitsOf(w: string, t: string)
    requires AllDigits(w)
    requires t == [] || !IsDigit(t[0])
    ensures LeadingDigits(w + t) == |w|
  {
    if w == [] {
      assert w + t == t;
    } else {
      assert (w + t)[1..] == w[1..] + t;
      LeadingDigitsOf(w[1..], t);
    }
  }

  /** Every well-formed literal is read back as itself. */
  lemma ParseRender(d: Decimal)
    requires WellFormed(d)
    ensures ParseDecimal(Render(d)) == Some(d)
  {
    var s := Render(d);
    var tail := if d.fraction.Some? then "." + d.fraction.value else "";
    var body := d.whole + tail;
    assert s == (if d.negative then "-" else "") + body;
    var negative := |s| > 0 && s[0] == '-';
    assert negative == d.negative by {
      if !d.negative && d.whole != [] {
        assert s[0] == d.whole[0];
      }
    }
    assert (if negative then s[1..] else s) == body;
    LeadingDigitsOf(d.whole, tail);
    assert body[..|d.whole|] == d.whole;
    assert body[|d.whole|..] == tail;
    if d.fraction.Some? {
      assert tail[1..] == d.fraction.value;
    }
  }

  /** `ParseDecimal` accepts exactly the decimal literals and returns the one
      the text spells. */
  lemma ParseDecimalIff(s: string, d: Decimal)
    ensures ParseDecimal(s) == Some(d) <==> WellFormed(d) && Render(d) == s
  {
    if WellFormed(d) && Render(d) == s {
      ParseRender(d);
    }
  }

  /** `ParseDecimal` rejects a text exactly when it is no decimal literal. */
  lemma ParseDecimalRejects(s: string)
    ensures ParseDecimal(s).None? <==> !IsDecimalLiteral(s)
  {
    if d :| WellFormed(d) && Render(d) == s {
      ParseRender(d);
    }
  }

  // ---------------------------------------------------------------------------
  // The exact value of a literal

  function Pow10(k: nat): (p: nat)
    ensures p > 0
  {
    if k == 0 then 1 else 10 * Pow10(k - 1)
  }

  function DigitValue(c: char): nat
    requires IsDigit(c)
  {
    (c - '0') as nat
  }

  /** The value of a string of digits read as a base-10 numeral. */
  function DigitsValue(s: string): nat
    requires AllDigits(s)
  {
    if s == [] then 0 else 10 * DigitsValue(s[..|s| - 1]) + DigitValue(s[|s| - 1])
  }

  /** The exact value `float()` rounds: whole part plus fraction digits over
      the matching power of ten, negated after a `-`. */
  function DecimalValue(d: Decimal): real
    requires WellFormed(d)
  {
    var f := FractionDigits(d);
    var magnitude := DigitsValue(d.whole) as real + DigitsValue(f) as real / Pow10(|f|) as real;
    if d.negative then -magnitude else magnitude
  }

  // ---------------------------------------------------------------------------
  // `_parse_numeric_state`

  /** `_parse_numeric_state(state)` where `state` is what `item.get("state")`
      returned: `None` for `null`, a number for a state whose cleaned text is a
      decimal literal, `None` for any other text, and a `TypeError` for a
      non-string scalar, whose character scan happens outside the `try`. */
  function ParseNumeric(state: Value): (r: Reading)
    ensures state.NullValue? ==> r == NoValue
    ensures state.Scalar? <==> r == TypeError
    ensures r.Num? <==> state.Text? && IsDecimalLiteral(Clean(state.s))
    ensures r.Num? ==> exists d :: WellFormed(d) && Render(d) == Clean(state.s) && r.value == DecimalValue(d)
  {
    match state
    case NullValue => NoValue
    case Scalar => TypeError
    case Text(s) =>
      var cleaned := Clean(s);
      ParseDecimalRejects(cleaned);
      if cleaned == "" then NoValue
      else match ParseDecimal(cleaned)
        case Some(d) => Num(DecimalValue(d))
        case None => NoValue
  }

  /** The empty text is no literal, so a state with nothing left after
      cleaning has no value. */
  lemma EmptyIsNoLiteral()
    ensures !IsDecimalLiteral("")
  {
    forall d | WellFormed(d)
      ensures Render(d) != ""
    {
      assert |Render(d)| >= |d.whole| + |FractionDigits(d)|;
    }
  }

  /** Parsing a state that has already been cleaned gives the same reading as
      parsing the raw state. */
  lemma {:induction false} ParseNumericClean(s: string)
    ensures ParseNumeric(Text(Clean(s))) == ParseNumeric(Text(s))
  {
    CleanIdempotent(s);
  }
}
