/** Scanning of face directives.

    A face line is read with the C format "f %d %d %d %d": the literal `f`,
    then up to four `%d` conversions, each of which skips leading white space,
    accepts an optional sign and at least one decimal digit. Scanning stops at
    the first conversion that fails; the number of conversions that succeeded
    is what the reader compares against 3. */
module ObjScan {

  datatype Option<T> = None | Some(value: T)

  /** The characters C's `isspace` accepts in the "C" locale. */
  predicate IsSpace(c: char) {
    c == ' ' || c == '\t' || c == '\n' || c == '\U{0B}' || c == '\U{0C}' || c == '\r'
  }

  predicate IsDigit(c: char) {
    '0' <= c <= '9'
  }

  predicate AllDigits(s: string) {
    forall j :: 0 <= j < |s| ==> IsDigit(s[j])
  }

  predicate AllSpace(s: string) {
    forall j :: 0 <= j < |s| ==> IsSpace(s[j])
  }

  function DigitValue(c: char): nat
    requires IsDigit(c)
  {
    (c as int) - ('0' as int)
  }

  function DigitChar(d: nat): (c: char)
    requires d < 10
    ensures IsDigit(c) && DigitValue(c) == d
  {
    (('0' as int) + d) as char
  }

  /** What is left of `s` once its leading white space is consumed. */
  function SkipSpace(s: string): (t: string)
    ensures |t| <= |s|
    ensures t == [] || !IsSpace(t[0])
  {
    if s != [] && IsSpace(s[0]) then SkipSpace(s[1..]) else s
  }

  /** SkipSpace removes a prefix of `s` made of white space only, and nothing
      else. */
  lemma {:induction false} SkipSpaceSpec(s: string)
    ensures var t := SkipSpace(s);
      && t == s[|s| - |t|..]
      && AllSpace(s[..|s| - |t|])
  {
    if s != [] && IsSpace(s[0]) {
      SkipSpaceSpec(s[1..]);
      var t := SkipSpace(s);
      assert s[..|s| - |t|] == [s[0]] + s[1..][..|s| - 1 - |t|];
    }
  }

  /** The length of the longest prefix of `s` made of decimal digits. */
  function DigitRun(s: string): (k: nat)
    ensures k <= |s|
  {
    if s != [] && IsDigit(s[0]) then 1 + DigitRun(s[1..]) else 0
  }

  lemma {:induction false} DigitRunSpec(s: string)
    ensures AllDigits(s[..DigitRun(s)])
    ensures DigitRun(s) == |s| || !IsDigit(s[DigitRun(s)])
  {
    if s != [] && IsDigit(s[0]) {
      DigitRunSpec(s[1..]);
      var k := DigitRun(s);
      assert s[..k] == [s[0]] + s[1..][..k - 1];
    }
  }

  /** The value of a string of decimal digits, most significant first. */
  function DecimalValue(s: string): nat
    requires AllDigits(s)
  {
    if s == [] then 0 else 10 * DecimalValue(s[..|s| - 1]) + DigitValue(s[|s| - 1])
  }

  /** The shortest decimal rendering of `n`, which reads back as `n`. */
  function Decimal(n: nat): (s: string)
    ensures |s| >= 1 && AllDigits(s)
    ensures DecimalValue(s) == n
    ensures n > 0 ==> s[0] != '0'
  {
    if n < 10 then [DigitChar(n)]
    else
      var s := Decimal(n / 10) + [DigitChar(n % 10)];
      assert s[..|s| - 1] == Decimal(n / 10);
      s
  }

  /** An unsigned run of at least one digit at the start of `u`: its value
      and what follows it. */
  function ScanDigits(u: string): (r: Option<(int, string)>)
    ensures r.Some? ==> |r.value.1| < |u|
  {
    var k := DigitRun(u);
    DigitRunSpec(u);
    if k == 0 then None else Some((DecimalValue(u[..k]) as int, u[k..]))
  }

  /** An optional sign followed by a run of digits. */
  function ScanSigned(t: string): (r: Option<(int, string)>)
    ensures r.Some? ==> |r.value.1| < |t|
  {
    var signed := t != [] && (t[0] == '-' || t[0] == '+');
    match ScanDigits(if signed then t[1..] else t)
    case None => None
    case Some((v, rest)) => Some((if signed && t[0] == '-' then -v else v, rest))
  }

  /** A suffix of a suffix of `s` is a suffix of `s`. */
  lemma SuffixOfSuffix(s: string, t: string, u: string)
    requires |t| <= |s| && t == s[|s| - |t|..]
    requires |u| <= |t| && u == t[|t| - |u|..]
    ensures u == s[|s| - |u|..]
  {
  }

  /** One `%d` conversion applied to `s`: the value read and the rest of the
      input, or None when no integer starts here (after white space). */
  function ScanInt(s: string): (r: Option<(int, string)>)
    ensures r.Some? ==> |r.value.1| < |s|
  {
    ScanSigned(SkipSpace(s))
  }

  /** `rest` is what is left of `s` after a whole digit run was read from
      its front: a suffix of `s` that does not start with a digit. */
  predicate EndsRun(s: string, rest: string) {
    && |rest| <= |s|
    && rest == s[|s| - |rest|..]
    && (rest == [] || !IsDigit(rest[0]))
  }

  lemma ScanDigitsSpec(u: string)
    ensures ScanDigits(u).Some? ==> EndsRun(u, ScanDigits(u).value.1)
  {
    DigitRunSpec(u);
  }

  lemma ScanSignedSpec(t: string)
    ensures ScanSigned(t).Some? ==> EndsRun(t, ScanSigned(t).value.1)
  {
    var signed := t != [] && (t[0] == '-' || t[0] == '+');
    var u := if signed then t[1..] else t;
    ScanDigitsSpec(u);
    if ScanDigits(u).Some? {
      SuffixOfSuffix(t, u, ScanDigits(u).value.1);
    }
  }

  /** A successful `%d` conversion leaves a suffix of its input that does not
      start with a digit: it reads the whole digit run. */
  lemma ScanIntSpec(s: string)
    ensures ScanInt(s).Some? ==> EndsRun(s, ScanInt(s).value.1)
  {
    var t := SkipSpace(s);
    SkipSpaceSpec(s);
    ScanSignedSpec(t);
    if ScanSigned(t).Some? {
      SuffixOfSuffix(s, t, ScanSigned(t).value.1);
    }
  }

  /** At most `max` successive `%d` conversions, stopping at the first failure. */
  function ScanInts(s: string, max: nat): (r: seq<int>)
    ensures |r| <= max
    decreases max
  {
    if max == 0 then []
    else
      match ScanInt(s)
      case None => []
      case Some((v, rest)) => [v] + ScanInts(rest, max - 1)
  }

  /** The indices `sscanf(line, "f %d %d %d %d", ...)` stores, in order; their
      number is the count that call returns (0 stands for both 0 and EOF). */
  function ScanFace(line: string): (r: seq<int>)
    ensures |r| <= 4
  {
    if line != [] && line[0] == 'f' then ScanInts(line[1..], 4) else []
  }

  /** One `%d` field as it may appear in a line: leading white space, an
      optional sign and a non-empty run of digits. */
  datatype Field = Field(space: string, sign: string, digits: string)

  predicate FieldOk(f: Field) {
    && AllSpace(f.space)
    && (f.sign == "" || f.sign == "+" || f.sign == "-")
    && |f.digits| >= 1 && AllDigits(f.digits)
  }

  function FieldText(f: Field): string {
    f.space + f.sign + f.digits
  }

  /** The number a field denotes. */
  function FieldValue(f: Field): int
    requires FieldOk(f)
  {
    if f.sign == "-" then -(DecimalValue(f.digits) as int) else DecimalValue(f.digits) as int
  }

  /** Well-formed fields, each after the first kept apart from the previous
      digit run by white space or a sign. */
  predicate FieldsOk(fs: seq<Field>) {
    && (forall k :: 0 <= k < |fs| ==> FieldOk(fs[k]))
    && (forall k :: 1 <= k < |fs| ==> fs[k].space != [] || fs[k].sign != [])
  }

  function FieldsText(fs: seq<Field>): string {
    if fs == [] then "" else FieldText(fs[0]) + FieldsText(fs[1..])
  }

  function FieldValues(fs: seq<Field>): (vs: seq<int>)
    requires forall k :: 0 <= k < |fs| ==> FieldOk(fs[k])
    ensures |vs| == |fs|
  {
    if fs == [] then [] else [FieldValue(fs[0])] + FieldValues(fs[1..])
  }

  /** The canonical fields of the 1-based indices `idx`: one space and the
      shortest decimal of each index. */
  function Canonical(idx: seq<nat>): (fs: seq<Field>)
    ensures |fs| == |idx| && FieldsOk(fs) && FieldValues(fs) == idx
  {
    if idx == [] then []
    else
      var fs := [Field(" ", "", Decimal(idx[0]))] + Canonical(idx[1..]);
      assert fs[1..] == Canonical(idx[1..]);
      assert idx == [idx[0]] + idx[1..];
      fs
  }

  /** The canonical face line `f a b c [d]` for the 1-based indices `idx`. */
  function FaceLine(idx: seq<nat>): (line: string)
    ensures |line| >= 1 && line[0] == 'f'
  {
    "f" + FieldsText(Canonical(idx))
  }

  lemma {:induction false} DigitRunIs(s: string, m: nat)
    requires m <= |s| && AllDigits(s[..m])
    requires m == |s| || !IsDigit(s[m])
    ensures DigitRun(s) == m
    decreases m
  {
    if m > 0 {
      assert IsDigit(s[..m][0]);
      assert s[1..][..m - 1] == s[..m][1..];
      DigitRunIs(s[1..], m - 1);
    }
  }

  lemma ScanIntsStep(s: string, max: nat, v: int, rest: string)
    requires max > 0 && ScanInt(s) == Some((v, rest))
    ensures ScanInts(s, max) == [v] + ScanInts(rest, max - 1)
  {
  }

  lemma DigitRunOfDigits(d: string, rest: string)
    requires |d| >= 1 && AllDigits(d)
    requires rest == [] || !IsDigit(rest[0])
    ensures DigitRun(d + rest) == |d|
  {
    assert (d + rest)[..|d|] == d;
    DigitRunIs(d + rest, |d|);
  }

  lemma ScanDigitsOf(d: string, rest: string)
    requires |d| >= 1 && AllDigits(d)
    requires rest == [] || !IsDigit(rest[0])
    ensures ScanDigits(d + rest) == Some((DecimalValue(d) as int, rest))
  {
    var u := d + rest;
    DigitRunOfDigits(d, rest);
    assert u[..|d|] == d && u[|d|..] == rest;
  }

  lemma UnsignedScan(u: string)
    requires u != [] && IsDigit(u[0])
    ensures ScanSigned(u) == ScanDigits(u)
  {
  }

  /** What `SkipSpace` leaves after a run of white space followed by anything
      that does not start with white space. */
  lemma {:induction false} SkipAllSpace(ws: string, t: string)
    requires AllSpace(ws) && (t == [] || !IsSpace(t[0]))
    ensures SkipSpace(ws + t) == t
    decreases |ws|
  {
    if ws == [] {
      assert ws + t == t;
    } else {
      assert (ws + t)[0] == ws[0];
      assert (ws + t)[1..] == ws[1..] + t;
      SkipAllSpace(ws[1..], t);
    }
  }

  lemma SplitSign(c: char, d: string, rest: string)
    ensures ([c] + d + rest)[0] == c && ([c] + d + rest)[1..] == d + rest
  {
  }

  lemma SignPrefix(t: string, v: int, rest: string)
    requires t != [] && (t[0] == '-' || t[0] == '+') && ScanDigits(t[1..]) == Some((v, rest))
    ensures ScanSigned(t) == Some((if t[0] == '-' then -v else v, rest))
  {
  }

  /** A sign character, a run of digits and anything that is not a digit. */
  lemma SignedDigits(c: char, d: string, rest: string, t: string, v: int)
    requires c == '-' || c == '+'
    requires |d| >= 1 && AllDigits(d)
    requires rest == [] || !IsDigit(rest[0])
    requires t == [c] + d + rest && v == DecimalValue(d) as int
    ensures ScanSigned(t) == Some((if c == '-' then -v else v, rest))
  {
    SplitSign(c, d, rest);
    ScanDigitsOf(d, rest);
    SignPrefix(t, v, rest);
  }

  /** The part of a field after its white space scans as the field's value. */
  lemma SignedField(f: Field, rest: string, t: string)
    requires FieldOk(f) && (rest == [] || !IsDigit(rest[0]))
    requires t == f.sign + f.digits + rest
    ensures ScanSigned(t) == Some((FieldValue(f), rest))
  {
    if f.sign == "" {
      assert t == f.digits + rest && t[0] == f.digits[0];
      UnsignedScan(t);
      ScanDigitsOf(f.digits, rest);
    } else {
      assert f.sign == [f.sign[0]];
      SignedDigits(f.sign[0], f.digits, rest, t, DecimalValue(f.digits) as int);
    }
  }

  /** A `%d` conversion on white space followed by `t` is the signed scan of `t`. */
  lemma ScanAfterSpace(s: string, ws: string, t: string)
    requires AllSpace(ws) && s == ws + t && (t == [] || !IsSpace(t[0]))
    ensures ScanInt(s) == ScanSigned(t)
  {
    SkipAllSpace(ws, t);
  }

  lemma FieldSplit(f: Field, rest: string, t: string)
    requires FieldOk(f) && t == f.sign + f.digits + rest
    ensures FieldText(f) + rest == f.space + t
    ensures t != [] && !IsSpace(t[0])
  {
    if f.sign == "" {
      assert t[0] == f.digits[0];
    } else {
      assert t[0] == f.sign[0];
    }
  }

  /** One `%d` conversion on a field (any white space, an optional sign, a
      run of digits with leading zeros allowed) followed by anything that is
      not a digit: it yields the field's value and leaves exactly the rest. */
  lemma ScanField(f: Field, rest: string)
    requires FieldOk(f) && (rest == [] || !IsDigit(rest[0]))
    ensures ScanInt(FieldText(f) + rest) == Some((FieldValue(f), rest))
  {
    var t := f.sign + f.digits + rest;
    FieldSplit(f, rest, t);
    ScanAfterSpace(FieldText(f) + rest, f.space, t);
    SignedField(f, rest, t);
  }

  /** What remains after the white space starts a number: a digit, or a sign
      followed by a digit. */
  predicate StartsNumber(t: string) {
    || (t != [] && IsDigit(t[0]))
    || (|t| >= 2 && (t[0] == '-' || t[0] == '+') && IsDigit(t[1]))
  }

  /** A `%d` conversion succeeds exactly when a number starts after the
      leading white space. */
  lemma ScanIntSucceeds(s: string)
    ensures ScanInt(s).Some? <==> StartsNumber(SkipSpace(s))
  {
    var t := SkipSpace(s);
    var signed := t != [] && (t[0] == '-' || t[0] == '+');
    var u := if signed then t[1..] else t;
    assert DigitRun(u) > 0 <==> u != [] && IsDigit(u[0]);
  }

  /** A space, the decimal of `n`, and anything that is not a digit scans as `n`. */
  lemma ScanIntDecimal(n: nat, rest: string)
    requires rest == [] || !IsDigit(rest[0])
    ensures ScanInt(" " + Decimal(n) + rest) == Some((n as int, rest))
  {
    var f := Field(" ", "", Decimal(n));
    assert FieldText(f) == " " + Decimal(n);
    ScanField(f, rest);
  }

  /** A minus sign is part of the conversion: a relative OBJ index such as
      `-2` scans as a negative number. */
  lemma ScanNegative(n: nat, rest: string)
    requires rest == [] || !IsDigit(rest[0])
    ensures ScanInt(" -" + Decimal(n) + rest) == Some((-(n as int), rest))
  {
    var f := Field(" ", "-", Decimal(n));
    assert FieldText(f) == " -" + Decimal(n);
    ScanField(f, rest);
  }

  /** The text of a non-empty list of fields whose first field starts with
      white space or a sign does not start with a digit. */
  lemma FieldsHead(fs: seq<Field>, rest: string)
    requires fs != [] && FieldOk(fs[0]) && (fs[0].space != [] || fs[0].sign != [])
    ensures FieldsText(fs) + rest != [] && !IsDigit((FieldsText(fs) + rest)[0])
  {
    var f := fs[0];
    assert FieldsText(fs) + rest == f.space + (f.sign + (f.digits + (FieldsText(fs[1..]) + rest)));
  }

  /** The inductive step of ScanFields: the first conversion reads the first
      field and leaves the others. */
  lemma ScanFieldsStep(fs: seq<Field>, rest: string, max: nat)
    requires FieldsOk(fs) && 0 < |fs| <= max
    requires rest == [] || !IsDigit(rest[0])
    requires ScanInts(FieldsText(fs[1..]) + rest, max - 1) == FieldValues(fs[1..])
    ensures ScanInts(FieldsText(fs) + rest, max) == FieldValues(fs)
  {
    var f, tail := fs[0], FieldsText(fs[1..]) + rest;
    assert FieldsText(fs) + rest == FieldText(f) + tail;
    if |fs| > 1 {
      assert FieldOk(fs[1..][0]) && (fs[1..][0].space != [] || fs[1..][0].sign != []);
      FieldsHead(fs[1..], rest);
    } else {
      assert tail == rest;
    }
    ScanField(f, tail);
    ScanIntsStep(FieldsText(fs) + rest, max, FieldValue(f), tail);
  }

  /** Up to `max` fields followed by a tail that does not continue the last
      digit run scan back to exactly their values, in order. When fewer than
      `max` fields are given, the tail must hold no further number. */
  lemma {:induction false} ScanFields(fs: seq<Field>, rest: string, max: nat)
    requires FieldsOk(fs) && |fs| <= max
    requires rest == [] || !IsDigit(rest[0])
    requires |fs| == max || ScanInt(rest) == None
    ensures ScanInts(FieldsText(fs) + rest, max) == FieldValues(fs)
    decreases |fs|
  {
    if fs == [] {
      assert FieldsText(fs) + rest == rest;
    } else {
      assert FieldsOk(fs[1..]);
      ScanFields(fs[1..], rest, max - 1);
      ScanFieldsStep(fs, rest, max);
    }
  }

  /** The face scan of any face line written as `f`, up to four fields with
      any white space, signs and leading zeros, and a tail that holds no
      further number (such as the `\r` of a CRLF line or trailing blanks). */
  lemma ScanFaceFields(fs: seq<Field>, rest: string)
    requires FieldsOk(fs) && |fs| <= 4
    requires rest == [] || !IsDigit(rest[0])
    requires |fs| == 4 || ScanInt(rest) == None
    ensures ScanFace("f" + FieldsText(fs) + rest) == FieldValues(fs)
  {
    var body := FieldsText(fs) + rest;
    assert "f" + FieldsText(fs) + rest == "f" + body;
    ScanFields(fs, rest, 4);
    FaceTail("f" + body, body, FieldValues(fs));
  }

  /** The face scan reads the conversions after the leading `f`. */
  lemma FaceTail(line: string, body: string, vs: seq<int>)
    requires line == "f" + body && ScanInts(body, 4) == vs
    ensures ScanFace(line) == vs
  {
    assert line[1..] == body;
  }

  /** Scanning the canonical line of at most four indices gives them back. */
  lemma FaceLineRoundTrip(idx: seq<nat>)
    requires |idx| <= 4
    ensures ScanFace(FaceLine(idx)) == idx
  {
    var fs := Canonical(idx);
    assert FaceLine(idx) == "f" + FieldsText(fs) + "";
    ScanFaceFields(fs, "");
  }

  /** Trailing white space, such as the carriage return `getline` keeps at the
      end of each line of a CRLF file, does not change the face scan. */
  lemma TrailingSpaceFace(idx: seq<nat>, ws: string)
    requires |idx| <= 4 && AllSpace(ws)
    ensures ScanFace(FaceLine(idx) + ws) == idx
  {
    var fs := Canonical(idx);
    SkipAllSpace(ws, "");
    assert ws + "" == ws;
    ScanIntSucceeds(ws);
    if ws != [] {
      assert IsSpace(ws[0]);
    }
    assert FaceLine(idx) + ws == "f" + FieldsText(fs) + ws;
    ScanFaceFields(fs, ws);
  }

  /** No conversion succeeds on input that starts with anything but white
      space, a sign or a digit. */
  lemma NoIntAt(s: string)
    requires s != [] && !IsSpace(s[0]) && !IsDigit(s[0]) && s[0] != '+' && s[0] != '-'
    ensures ScanInt(s) == None
  {
    assert SkipSpace(s) == s;
  }

  /** A face written with vertex/texture/normal references ("f 1/4/7 ...")
      yields a single index: the second `%d` stops at the slash. */
  lemma SlashedFaceYieldsOneIndex(n: nat, more: string)
    ensures ScanFace("f " + Decimal(n) + "/" + more) == [n]
  {
    var line := "f " + Decimal(n) + "/" + more;
    var rest := "/" + more;
    assert line[1..] == " " + Decimal(n) + rest;
    ScanIntDecimal(n, rest);
    NoIntAt(rest);
    ScanIntsStep(line[1..], 4, n, rest);
  }
}
