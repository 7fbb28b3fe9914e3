/**
 * The price parser of the shopping app (`parsePrice`) and the small part of
 * JavaScript's number parsing it relies on: `trim`, `parseFloat`, `Number`
 * and a single-occurrence `replace`, over a plain digits-and-dot grammar.
 */
module PriceParser {
  import opened Wrappers

  /** A raw spreadsheet cell as the data source delivers it. */
  datatype Cell = Absent | Num(x: real) | Text(s: string)

  /** A decimal numeral found at the start of a text: how many characters it takes and its value. */
  datatype Numeral = Numeral(len: nat, value: real)

  /** The pound sign the prices are written with. */
  const Pound: string := "\U{00A3}"

  /** The currency literal the source strips: the pound sign's UTF-8 bytes read as Mac Roman. */
  const MisencodedPound: string := "\U{00AC}\U{00A3}"

  /**
   * The characters `trim` and `parseFloat` skip: ECMAScript's white space (tab, vertical tab,
   * form feed, space, no-break space, byte-order mark and the other space separators) and
   * line terminators.
   */
  predicate IsSpace(c: char)
  {
    c == '\t' || c == '\n' || c == '\U{000B}' || c == '\U{000C}' || c == '\r' || c == ' '
    || c == '\U{00A0}' || c == '\U{1680}' || ('\U{2000}' <= c <= '\U{200A}')
    || c == '\U{2028}' || c == '\U{2029}' || c == '\U{202F}' || c == '\U{205F}'
    || c == '\U{3000}' || c == '\U{FEFF}'
  }

  predicate IsDigit(c: char) { '0' <= c <= '9' }

  /** Every character of `t` in positions `i` to `j - 1` is a digit. */
  predicate DigitsIn(t: string, i: nat, j: nat)
    requires i <= j <= |t|
  {
    forall k :: i <= k < j ==> IsDigit(t[k])
  }

  /** Leading white space removed. */
  function TrimStart(s: string): (r: string)
    ensures |r| <= |s|
    ensures r == [] || !IsSpace(r[0])
    decreases |s|
  {
    if s != [] && IsSpace(s[0]) then TrimStart(s[1..]) else s
  }

  /** Trailing white space removed. */
  function TrimEnd(s: string): (r: string)
    ensures |r| <= |s| && r == s[..|r|]
    ensures r == [] || !IsSpace(r[|r| - 1])
    decreases |s|
  {
    if s != [] && IsSpace(s[|s| - 1]) then TrimEnd(s[..|s| - 1]) else s
  }

  /** `String.prototype.trim`: the infix of `s` left once the white space at both ends is removed. */
  function Trim(s: string): (r: string)
    ensures exists i, j :: 0 <= i <= j <= |s| && r == s[i..j] && AllSpace(s[..i]) && AllSpace(s[j..])
    ensures r == [] || (!IsSpace(r[0]) && !IsSpace(r[|r| - 1]))
  {
    var t := TrimStart(s);
    var r := TrimEnd(t);
    TrimStartDrops(s);
    TrimEndDrops(t);
    var i := |s| - |t|;
    assert s[i..i + |r|] == r;
    assert s[i + |r|..] == t[|r|..];
    r
  }

  /** Every character of `s` is white space. */
  predicate AllSpace(s: string)
  {
    forall k :: 0 <= k < |s| ==> IsSpace(s[k])
  }

  /** `TrimStart` drops a run of white space from the front and keeps the rest as it is. */
  lemma {:induction false} TrimStartDrops(s: string)
    ensures |TrimStart(s)| <= |s| && TrimStart(s) == s[|s| - |TrimStart(s)|..]
    ensures AllSpace(s[..|s| - |TrimStart(s)|])
    decreases |s|
  {
    if s != [] && IsSpace(s[0]) {
      TrimStartDrops(s[1..]);
      var n := |s| - |TrimStart(s)|;
      assert s[..n] == [s[0]] + s[1..][..n - 1];
    }
  }

  /** `TrimEnd` drops a run of white space from the back and keeps the rest as it is. */
  lemma {:induction false} TrimEndDrops(s: string)
    ensures |TrimEnd(s)| <= |s| && TrimEnd(s) == s[..|TrimEnd(s)|]
    ensures AllSpace(s[|TrimEnd(s)|..])
    decreases |s|
  {
    if s != [] && IsSpace(s[|s| - 1]) {
      var init := s[..|s| - 1];
      TrimEndDrops(init);
      var n := |TrimEnd(s)|;
      assert s[n..] == init[n..] + [s[|s| - 1]];
    }
  }

  /** The length of the run of digits that starts at position `i`. */
  function DigitsFrom(t: string, i: nat): (n: nat)
    requires i <= |t|
    ensures i + n <= |t| && DigitsIn(t, i, i + n)
    ensures i + n == |t| || !IsDigit(t[i + n])
    decreases |t| - i
  {
    if i < |t| && IsDigit(t[i]) then 1 + DigitsFrom(t, i + 1) else 0
  }

  /** The value of the decimal digits in positions `i` to `j - 1`, most significant first. */
  function ValueOf(t: string, i: nat, j: nat): nat
    requires i <= j <= |t| && DigitsIn(t, i, j)
    decreases j
  {
    if j == i then 0 else 10 * ValueOf(t, i, j - 1) + (t[j - 1] as int - '0' as int)
  }

  function Pow10(n: nat): (r: nat)
    ensures r >= 1
  {
    if n == 0 then 1 else 10 * Pow10(n - 1)
  }

  /** The number written `whole.fraction`, where the fraction has `places` digits. */
  function Decimal(whole: nat, fraction: nat, places: nat): real
  {
    whole as real + fraction as real / Pow10(places) as real
  }

  /**
   * The longest numeral `digits ['.' digits]` at the very start of `t`, at least one digit in all;
   * a trailing point with no digits after it is consumed, as JavaScript does with "5.".
   */
  function Lexeme(t: string): (r: Option<Numeral>)
    ensures r.Some? ==> 0 < r.value.len <= |t|
  {
    var n := DigitsFrom(t, 0);
    if n < |t| && t[n] == '.' then
      var m := DigitsFrom(t, n + 1);
      if n == 0 && m == 0 then None
      else Some(Numeral(n + 1 + m, Decimal(ValueOf(t, 0, n), ValueOf(t, n + 1, n + 1 + m), m)))
    else if n == 0 then None
    else Some(Numeral(n, ValueOf(t, 0, n) as real))
  }

  /**
   * `parseFloat`: leading white space skipped, then the longest numeral; `None` stands for
   * `NaN`, which is the outcome exactly when, after the white space, neither a digit nor a
   * point followed by a digit starts the text.
   */
  function ParseFloat(s: string): (r: Option<real>)
    ensures r.None? <==>
      var t := TrimStart(s);
      t == [] || (!IsDigit(t[0]) && (t[0] != '.' || |t| == 1 || !IsDigit(t[1])))
  {
    match Lexeme(TrimStart(s))
    case None => None
    case Some(num) => Some(num.value)
  }

  /** `t` is one numeral and nothing else: digits, or digits, a point and digits, with at least one digit. */
  predicate NumeralText(t: string)
  {
    (t != [] && DigitsIn(t, 0, |t|))
    || exists p :: 0 <= p < |t| && t[p] == '.' && 2 <= |t| && DigitsIn(t, 0, p) && DigitsIn(t, p + 1, |t|)
  }

  /**
   * `Number(cell)`: a missing cell is `NaN`; a text converts when, trimmed, it is empty (to 0)
   * or one whole numeral, and is `NaN` otherwise. The value of a numeral is given by
   * `ToNumberInteger` and `ToNumberDecimal`.
   */
  function ToNumber(c: Cell): (r: Option<real>)
    ensures c.Absent? ==> r.None?
    ensures c.Num? ==> r == Some(c.x)
    ensures c.Text? && Trim(c.s) == [] ==> r == Some(0.0)
    ensures c.Text? && Trim(c.s) != [] ==> (r.Some? <==> NumeralText(Trim(c.s)))
  {
    match c
    case Absent => None
    case Num(x) => Some(x)
    case Text(s) =>
      var t := Trim(s);
      if t == [] then Some(0.0)
      else
        LexemeWhole(t);
        match Lexeme(t)
        case Some(num) => if num.len == |t| then Some(num.value) else None
        case None => None
  }

  /** A run of digits from `i` that stops at `j` has length `j - i`. */
  lemma {:induction false} DigitsFromExact(t: string, i: nat, j: nat)
    requires i <= j <= |t| && DigitsIn(t, i, j) && (j == |t| || !IsDigit(t[j]))
    ensures DigitsFrom(t, i) == j - i
    decreases j - i
  {
    if i < j {
      DigitsFromExact(t, i + 1, j);
    }
  }

  /** The numeral at the start of a non-empty text spans all of it exactly when the text is one numeral. */
  lemma LexemeWhole(t: string)
    requires t != []
    ensures (Lexeme(t).Some? && Lexeme(t).value.len == |t|) <==> NumeralText(t)
  {
    var n := DigitsFrom(t, 0);
    if n < |t| && t[n] == '.' {
      var m := DigitsFrom(t, n + 1);
      if Lexeme(t).Some? && Lexeme(t).value.len == |t| {
        assert 0 <= n < |t| && t[n] == '.' && 2 <= |t| && DigitsIn(t, 0, n) && DigitsIn(t, n + 1, |t|);
      }
    }
    if NumeralText(t) {
      if t != [] && DigitsIn(t, 0, |t|) {
        DigitsFromExact(t, 0, |t|);
      } else {
        var p :| 0 <= p < |t| && t[p] == '.' && 2 <= |t| && DigitsIn(t, 0, p) && DigitsIn(t, p + 1, |t|);
        DigitsFromExact(t, 0, p);
        DigitsFromExact(t, p + 1, |t|);
      }
    }
  }

  /** `parseFloat(...) || 0`: a `NaN` or zero becomes 0. */
  function OrZero(v: Option<real>): real
  {
    match v
    case None => 0.0
    case Some(x) => x
  }

  /** `pat` occurs in `s` starting at position `i`. */
  predicate OccursAt(s: string, pat: string, i: nat)
  {
    i + |pat| <= |s| && s[i..i + |pat|] == pat
  }

  /**
   * `s.replace(pat, "")`: the first occurrence of `pat` is cut out and the text on both sides
   * of it kept; a text in which `pat` does not occur is returned unchanged.
   */
  function ReplaceFirst(s: string, pat: string): (r: string)
    ensures forall i: nat :: OccursAt(s, pat, i) && (forall k: nat :: k < i ==> !OccursAt(s, pat, k))
              ==> r == s[..i] + s[i + |pat|..]
    ensures (forall i: nat :: !OccursAt(s, pat, i)) ==> r == s
    decreases |s|
  {
    if |s| < |pat| then s
    else if s[..|pat|] == pat then
      assert OccursAt(s, pat, 0);
      s[|pat|..]
    else
      assert !OccursAt(s, pat, 0);
      var rest := ReplaceFirst(s[1..], pat);
      ReplaceFirstStep(s, pat, rest);
      [s[0]] + rest
  }

  /** Cutting the first occurrence out of the tail of `s`, when `s` does not start with it, cuts it out of `s`. */
  lemma ReplaceFirstStep(s: string, pat: string, rest: string)
    requires s != [] && !OccursAt(s, pat, 0)
    requires forall i: nat :: OccursAt(s[1..], pat, i) && (forall k: nat :: k < i ==> !OccursAt(s[1..], pat, k))
               ==> rest == s[1..][..i] + s[1..][i + |pat|..]
    requires (forall i: nat :: !OccursAt(s[1..], pat, i)) ==> rest == s[1..]
    ensures forall i: nat :: OccursAt(s, pat, i) && (forall k: nat :: k < i ==> !OccursAt(s, pat, k))
              ==> [s[0]] + rest == s[..i] + s[i + |pat|..]
    ensures (forall i: nat :: !OccursAt(s, pat, i)) ==> [s[0]] + rest == s
  {
    forall i: nat | OccursAt(s, pat, i) && (forall k: nat :: k < i ==> !OccursAt(s, pat, k))
      ensures [s[0]] + rest == s[..i] + s[i + |pat|..]
    {
      FirstOccurrenceInTail(s, pat, i);
      SplitAround(s, i, |pat|);
    }
    if forall i: nat :: !OccursAt(s, pat, i) {
      NoOccurrenceInTail(s, pat);
      assert [s[0]] + s[1..] == s;
    }
  }

  /** The first occurrence in `s`, not at its start, is one position earlier the first occurrence in its tail. */
  lemma FirstOccurrenceInTail(s: string, pat: string, i: nat)
    requires s != [] && !OccursAt(s, pat, 0)
    requires OccursAt(s, pat, i) && forall k: nat :: k < i ==> !OccursAt(s, pat, k)
    ensures i > 0 && OccursAt(s[1..], pat, i - 1)
    ensures forall k: nat :: k < i - 1 ==> !OccursAt(s[1..], pat, k)
  {
    OccursAtTail(s, pat);
  }

  /** With no occurrence in `s`, there is none in its tail. */
  lemma NoOccurrenceInTail(s: string, pat: string)
    requires s != [] && forall i: nat :: !OccursAt(s, pat, i)
    ensures forall i: nat :: !OccursAt(s[1..], pat, i)
  {
    OccursAtTail(s, pat);
  }

  /** Cutting `n` characters at `i > 0` out of `s` keeps its first character in front of the cut tail. */
  lemma SplitAround(s: string, i: nat, n: nat)
    requires 0 < i && i + n <= |s|
    ensures s[..i] + s[i + n..] == [s[0]] + (s[1..][..i - 1] + s[1..][i - 1 + n..])
  {
    assert s[..i] == [s[0]] + s[1..][..i - 1];
    assert s[i + n..] == s[1..][i - 1 + n..];
  }

  /** An occurrence in the tail of `s` is an occurrence in `s`, one position further on. */
  lemma OccursAtTail(s: string, pat: string)
    requires s != []
    ensures forall i: nat :: OccursAt(s[1..], pat, i) <==> OccursAt(s, pat, i + 1)
  {
    forall i: nat
      ensures OccursAt(s[1..], pat, i) <==> OccursAt(s, pat, i + 1)
    {
      if i + 1 + |pat| <= |s| {
        assert s[1..][i..i + |pat|] == s[i + 1..i + 1 + |pat|];
      }
    }
  }

  predicate EndsWithPence(t: string) { t != [] && t[|t| - 1] == 'p' }

  /** `parsePrice`, with the currency literal it strips as a parameter. */
  function ParsePriceWith(currency: string, raw: Cell): (r: real)
    ensures raw.Num? ==> r == raw.x
    ensures raw.Absent? || raw == Text([]) ==> r == 0.0
  {
    match raw
    case Num(x) => x
    case Absent => 0.0
    case Text(s) =>
      if s == [] then 0.0
      else
        var t := Trim(s);
        if EndsWithPence(t) then OrZero(ParseFloat(t)) / 100.0
        else OrZero(ParseFloat(ReplaceFirst(t, currency)))
  }

  /**
   * The source as written: it strips the mis-encoded literal, so a price text in which that
   * literal does not occur, such as one with a real pound sign, reaches `parseFloat` whole.
   */
  function ParsePriceAsWritten(raw: Cell): (r: real)
    ensures raw.Num? ==> r == raw.x
    ensures raw.Text? && raw.s != [] && !EndsWithPence(Trim(raw.s))
            && (forall i :: 0 <= i < |Trim(raw.s)| ==> Trim(raw.s)[i] != MisencodedPound[0])
            ==> r == OrZero(ParseFloat(Trim(raw.s)))
  {
    if raw.Text? && forall i :: 0 <= i < |Trim(raw.s)| ==> Trim(raw.s)[i] != MisencodedPound[0] then
      ReplaceFirstAbsent(Trim(raw.s), MisencodedPound);
      ParsePriceWith(MisencodedPound, raw)
    else
      ParsePriceWith(MisencodedPound, raw)
  }

  /**
   * The evidently intended parser, which strips the pound sign that starts a price; the
   * catalogue uses this one.
   */
  function ParsePrice(raw: Cell): (r: real)
    ensures raw.Num? ==> r == raw.x
    ensures raw.Absent? ==> r == 0.0
    ensures raw.Text? && Trim(raw.s) != [] && !EndsWithPence(Trim(raw.s)) && Trim(raw.s)[0] == Pound[0]
            ==> r == OrZero(ParseFloat(Trim(raw.s)[1..]))
  {
    if raw.Text? && Trim(raw.s) != [] && Trim(raw.s)[0] == Pound[0] then
      var t := Trim(raw.s);
      assert OccursAt(t, Pound, 0) by { assert t[0..1] == [t[0]]; }
      assert t[..0] + t[1..] == t[1..];
      ParsePriceWith(Pound, raw)
    else
      ParsePriceWith(Pound, raw)
  }

  // ---------------------------------------------------------------------------
  // Properties

  /** The digits of one text, copied at an offset into another, keep their run length and value. */
  lemma {:induction false} ValueOfShift(t: string, i: nat, j: nat, u: string, off: nat)
    requires i <= j <= |t| && j + off <= |u| && DigitsIn(t, i, j)
    requires forall k :: i <= k < j ==> u[k + off] == t[k]
    ensures DigitsIn(u, i + off, j + off)
    ensures ValueOf(u, i + off, j + off) == ValueOf(t, i, j)
    decreases j
  {
    assert forall k :: i + off <= k < j + off ==> u[k] == t[k - off];
    if j > i {
      ValueOfShift(t, i, j - 1, u, off);
    }
  }

  /** In `ds + rest`, the run of digits starting at `i` within `ds` ends where `ds` ends, if `rest` cannot continue it. */
  lemma {:induction false} DigitsFromPrefix(ds: string, rest: string, i: nat)
    requires i <= |ds| && DigitsIn(ds, i, |ds|)
    requires rest == [] || !IsDigit(rest[0])
    ensures DigitsFrom(ds + rest, i) == |ds| - i
    decreases |ds| - i
  {
    if i < |ds| {
      assert (ds + rest)[i] == ds[i];
      DigitsFromPrefix(ds, rest, i + 1);
    } else if rest != [] {
      assert (ds + rest)[i] == rest[0];
    }
  }

  /** Text with no white space at either end is its own trim. */
  lemma TrimNoSpace(t: string)
    requires t != [] && !IsSpace(t[0]) && !IsSpace(t[|t| - 1])
    ensures Trim(t) == t
  {
    assert TrimStart(t) == t;
  }

  /** Text that does not start with white space has nothing to skip. */
  lemma TrimStartNoSpace(t: string)
    requires t != [] && !IsSpace(t[0])
    ensures TrimStart(t) == t
  {
  }

  /** The value of a whole string of digits. */
  function NatOf(ds: string): nat
    requires DigitsIn(ds, 0, |ds|)
  {
    ValueOf(ds, 0, |ds|)
  }

  /** `parseFloat` reads an integer numeral and stops at the first character that cannot continue it. */
  lemma IntegerPrefix(ds: string, rest: string)
    requires ds != [] && DigitsIn(ds, 0, |ds|)
    requires rest == [] || (!IsDigit(rest[0]) && rest[0] != '.')
    ensures ParseFloat(ds + rest) == Some(NatOf(ds) as real)
  {
    var t := ds + rest;
    DigitsFromPrefix(ds, rest, 0);
    ValueOfShift(ds, 0, |ds|, t, 0);
    assert t[0] == ds[0];
    TrimStartNoSpace(t);
    assert |ds| < |t| ==> t[|ds|] == rest[0];
    assert Lexeme(t) == Some(Numeral(|ds|, NatOf(ds) as real));
  }

  /** `parseFloat` of a text that starts with `n` digits, a point and `m > 0` more digits. */
  lemma ParseDecimalAt(t: string, n: nat, m: nat)
    requires n == DigitsFrom(t, 0) && n < |t| && t[n] == '.'
    requires m == DigitsFrom(t, n + 1) && m > 0
    requires !IsSpace(t[0])
    ensures ParseFloat(t) == Some(Decimal(ValueOf(t, 0, n), ValueOf(t, n + 1, n + 1 + m), m))
  {
    TrimStartNoSpace(t);
  }

  /** Where the integer digits, the point and the fraction digits sit in `ints + "." + frac + rest`. */
  lemma IntegerPartLayout(ints: string, tail: string)
    requires DigitsIn(ints, 0, |ints|)
    requires tail != [] && tail[0] == '.'
    ensures DigitsFrom(ints + tail, 0) == |ints| && ValueOf(ints + tail, 0, |ints|) == NatOf(ints)
    ensures (ints + tail)[|ints|] == '.' && !IsSpace((ints + tail)[0])
  {
    DigitsFromPrefix(ints, tail, 0);
    ValueOfShift(ints, 0, |ints|, ints + tail, 0);
    if |ints| > 0 { assert (ints + tail)[0] == ints[0]; }
  }

  lemma FractionPartLayout(head: string, frac: string, rest: string)
    requires DigitsIn(frac, 0, |frac|)
    requires rest == [] || !IsDigit(rest[0])
    ensures DigitsFrom(head + frac + rest, |head|) == |frac|
    ensures ValueOf(head + frac + rest, |head|, |head| + |frac|) == NatOf(frac)
  {
    var t := head + frac + rest;
    var u := frac + rest;
    assert t == head + u;
    assert t[|head|..] == u;
    DigitsFromPrefix(frac, rest, 0);
    DigitsFromShift(u, 0, t, |head|);
    assert forall k :: 0 <= k < |frac| ==> t[k + |head|] == frac[k];
    ValueOfShift(frac, 0, |frac|, t, |head|);
  }

  /** `parseFloat` reads `int.frac` and stops at the first character that cannot continue it. */
  lemma DecimalPrefix(ints: string, frac: string, rest: string)
    requires DigitsIn(ints, 0, |ints|) && DigitsIn(frac, 0, |frac|) && frac != []
    requires rest == [] || !IsDigit(rest[0])
    ensures ParseFloat(ints + "." + frac + rest)
         == Some(Decimal(NatOf(ints), NatOf(frac), |frac|))
  {
    var head := ints + ".";
    var t := head + frac + rest;
    assert t == ints + ("." + frac + rest);
    IntegerPartLayout(ints, "." + frac + rest);
    FractionPartLayout(head, frac, rest);
    ParseDecimalAt(t, |ints|, |frac|);
  }

  /** The run of digits at a position of `u` is the same run once `u` is placed after a prefix. */
  lemma {:induction false} DigitsFromShift(u: string, i: nat, t: string, off: nat)
    requires i <= |u| && off <= |t| && t[off..] == u
    ensures DigitsFrom(t, i + off) == DigitsFrom(u, i)
    decreases |u| - i
  {
    if i < |u| {
      assert t[i + off] == u[i];
      DigitsFromShift(u, i + 1, t, off);
    }
  }

  /** Stripping a literal that starts the text leaves exactly the rest. */
  lemma ReplaceFirstPrefix(pat: string, rest: string)
    ensures ReplaceFirst(pat + rest, pat) == rest
  {
    assert (pat + rest)[..|pat|] == pat;
    assert (pat + rest)[|pat|..] == rest;
  }

  /** A text in which the literal's first character never occurs is left unchanged. */
  lemma {:induction false} ReplaceFirstAbsent(s: string, pat: string)
    requires pat != []
    requires forall i :: 0 <= i < |s| ==> s[i] != pat[0]
    ensures ReplaceFirst(s, pat) == s
    decreases |s|
  {
    if |s| >= |pat| {
      assert s[..|pat|][0] == s[0];
      ReplaceFirstAbsent(s[1..], pat);
      assert [s[0]] + s[1..] == s;
    }
  }

  /** `Number` of a text of digits is their value. */
  lemma ToNumberInteger(ds: string)
    requires ds != [] && DigitsIn(ds, 0, |ds|)
    ensures ToNumber(Text(ds)) == Some(NatOf(ds) as real)
  {
    assert IsDigit(ds[0]) && IsDigit(ds[|ds| - 1]);
    TrimNoSpace(ds);
    DigitsFromExact(ds, 0, |ds|);
  }

  /** `Number` of a text "<int>.<frac>" is the decimal it spells. */
  lemma ToNumberDecimal(ints: string, frac: string)
    requires DigitsIn(ints, 0, |ints|) && DigitsIn(frac, 0, |frac|) && frac != []
    ensures ToNumber(Text(ints + "." + frac)) == Some(Decimal(NatOf(ints), NatOf(frac), |frac|))
  {
    var t := ints + "." + frac;
    assert t[|t| - 1] == frac[|frac| - 1];
    LexemeDecimal(ints, frac);
    TrimNoSpace(t);
  }

  /** The numeral at the start of "<int>.<frac>" is all of it. */
  lemma LexemeDecimal(ints: string, frac: string)
    requires DigitsIn(ints, 0, |ints|) && DigitsIn(frac, 0, |frac|) && frac != []
    ensures !IsSpace((ints + "." + frac)[0])
    ensures Lexeme(ints + "." + frac) == Some(Numeral(|ints| + 1 + |frac|, Decimal(NatOf(ints), NatOf(frac), |frac|)))
  {
    var t := ints + "." + frac;
    assert t == ints + ("." + frac);
    IntegerPartLayout(ints, "." + frac);
    FractionPartLayout(ints + ".", frac, "");
    assert ints + "." + frac + "" == t;
  }

  /** A price in pence, "<digits>p", is the digits' value divided by 100. */
  lemma PencePrice(ds: string)
    requires ds != [] && DigitsIn(ds, 0, |ds|)
    ensures ParsePrice(Text(ds + "p")) == NatOf(ds) as real / 100.0
  {
    var s := ds + "p";
    assert s[0] == ds[0];
    assert TrimStart(s) == s;
    assert TrimEnd(s) == s;
    IntegerPrefix(ds, "p");
  }

  /** A price "£<int>.<frac>" is read as the decimal it spells. */
  lemma PoundPrice(ints: string, frac: string)
    requires ints != [] && DigitsIn(ints, 0, |ints|) && DigitsIn(frac, 0, |frac|) && frac != []
    ensures ParsePrice(Text(Pound + ints + "." + frac))
         == Decimal(NatOf(ints), NatOf(frac), |frac|)
  {
    var s := Pound + ints + "." + frac;
    assert s[0] == Pound[0];
    assert TrimStart(s) == s;
    assert s[|s| - 1] == frac[|frac| - 1];
    assert TrimEnd(s) == s;
    assert s == Pound + (ints + "." + frac);
    ReplaceFirstPrefix(Pound, ints + "." + frac);
    DecimalPrefix(ints, frac, "");
    assert ints + "." + frac + "" == ints + "." + frac;
  }

  /** "99p" is 99 pence, 0.99. */
  lemma PenceExample()
    ensures ParsePrice(Text("99p")) == 0.99
  {
    PencePrice("99");
    assert "99" + "p" == "99p";
    assert ValueOf("99", 0, 1) == 9;
  }

  lemma OnePointFifty()
    ensures NatOf("1") == 1 && NatOf("50") == 50
    ensures Decimal(1, 50, 2) == 1.5
  {
    assert ValueOf("50", 0, 1) == 5;
    assert Pow10(2) == 100;
  }

  /** "£1.50" is 1.50. */
  lemma PoundExample()
    ensures ParsePrice(Text(Pound + "1.50")) == 1.5
  {
    var s := Pound + "1" + "." + "50";
    assert s == Pound + "1.50";
    OnePointFifty();
    PoundPrice("1", "50");
  }

  /** As written, a price spelled with a real pound sign parses to 0: the sign is not stripped and parseFloat meets it first. */
  lemma MisencodedPoundDropsPrice()
    ensures ParsePriceAsWritten(Text(Pound + "1.50")) == 0.0
    ensures ParsePrice(Text(Pound + "1.50")) == 1.5
  {
    var s := Pound + "1.50";
    assert s[0] == Pound[0] && s[|s| - 1] == '0';
    TrimNoSpace(s);
    ReplaceFirstAbsent(s, MisencodedPound);
    assert DigitsFrom(s, 0) == 0;
    assert Lexeme(s) == None;
    PoundExample();
  }
}
