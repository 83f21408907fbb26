/** The bundled server's request log line and its listen port.

    For every request under `/api` the server logs
    `METHOD PATH STATUS in Nms`, followed by ` :: ` and the serialized JSON
    body when a truthy one was sent, cut to 80 characters. The clock
    difference is the `durationMs` argument and `JSON.stringify` the
    `stringify` argument. The port is `parseInt(process.env.PORT || "5000", 10)`. */
module ServerLog {
  import opened Wrappers
  import opened Sequences
  import opened JsonValues

  const MaxLineLength: nat := 80

  /** "…", which replaces the cut-off tail of a long line. */
  const Ellipsis: char := '\U{2026}'

  // ----------------------------------------------------------------- numbers

  predicate IsDigit(c: char) { '0' <= c <= '9' }

  predicate HasNoDigit(s: string) {
    forall i :: 0 <= i < |s| ==> !IsDigit(s[i])
  }

  function DigitChar(d: nat): (c: char)
    requires d < 10
    ensures IsDigit(c) && DigitValue(c) == d
  {
    ('0' as int + d) as char
  }

  function DigitValue(c: char): (d: nat)
    requires IsDigit(c)
    ensures d < 10
  {
    c as int - '0' as int
  }

  /** The decimal digits of `n`, most significant first, no leading zeros. */
  function NatDigits(n: nat): (s: string)
    ensures |s| >= 1 && forall i :: 0 <= i < |s| ==> IsDigit(s[i])
    ensures |s| > 1 ==> s[0] != '0'
  {
    if n < 10 then [DigitChar(n)] else NatDigits(n / 10) + [DigitChar(n % 10)]
  }

  /** How a JavaScript template literal writes an integer. */
  function DecimalString(n: int): (s: string)
    ensures |s| >= 1
    ensures s[0] == '-' <==> n < 0
    ensures forall i :: (if n < 0 then 1 else 0) <= i < |s| ==> IsDigit(s[i])
  {
    if n < 0 then "-" + NatDigits(-n) else NatDigits(n)
  }

  /** The value of a run of decimal digits. */
  function DigitsValue(s: string): nat
    requires forall i :: 0 <= i < |s| ==> IsDigit(s[i])
  {
    if s == [] then 0 else DigitsValue(s[..|s| - 1]) * 10 + DigitValue(s[|s| - 1])
  }

  /** The longest prefix of `s` made of digits. */
  function DigitPrefix(s: string): (p: string)
    ensures StartsWith(s, p) && forall i :: 0 <= i < |p| ==> IsDigit(p[i])
    ensures |p| < |s| ==> !IsDigit(s[|p|])
  {
    if s == [] || !IsDigit(s[0]) then []
    else
      var p := [s[0]] + DigitPrefix(s[1..]);
      assert s[..|p|] == [s[0]] + s[1..][..|p| - 1];
      p
  }

  /** The white space `parseInt` skips that fits in one character here: tab,
      line feed, vertical tab, form feed, carriage return, space, no-break
      space and the byte-order mark. */
  predicate IsWhiteSpace(c: char) {
    || c == ' ' || c == '\t' || c == '\n' || c == '\r'
    || c == '\U{000B}' || c == '\U{000C}' || c == '\U{00A0}' || c == '\U{FEFF}'
  }

  function TrimStart(s: string): string {
    if s != [] && IsWhiteSpace(s[0]) then TrimStart(s[1..]) else s
  }

  /** The value of the digits at the front of `u`; `None` when there are none. */
  function LeadingNumber(u: string): Option<nat> {
    var digits := DigitPrefix(u);
    if digits == [] then None else Some(DigitsValue(digits))
  }

  /** `parseInt(s, 10)`: leading white space is skipped, an optional sign is
      read, then the longest run of digits; `None` stands for `NaN`, when there
      is no digit. A string without any digit is `NaN`. */
  function ParseInt(s: string): (r: Option<int>)
    ensures HasNoDigit(s) ==> r.None?
  {
    var t := TrimStart(s);
    TrimStartIsSuffix(s);
    assert HasNoDigit(s) ==> HasNoDigit(t) by {
      assert forall i :: 0 <= i < |t| ==> t[i] == s[|s| - |t| + i];
    }
    if t != [] && t[0] == '-' then
      match LeadingNumber(t[1..])
      case None => None
      case Some(v) => Some(-(v as int))
    else if t != [] && t[0] == '+' then
      match LeadingNumber(t[1..])
      case None => None
      case Some(v) => Some(v)
    else
      match LeadingNumber(t)
      case None => None
      case Some(v) => Some(v)
  }

  lemma {:induction false} NatDigitsValue(n: nat)
    ensures DigitsValue(NatDigits(n)) == n
  {
    if n >= 10 {
      NatDigitsValue(n / 10);
      var s := NatDigits(n);
      assert s[..|s| - 1] == NatDigits(n / 10) && s[|s| - 1] == DigitChar(n % 10);
      assert DigitsValue(s) == DigitsValue(NatDigits(n / 10)) * 10 + n % 10;
    }
  }

  lemma {:induction false} DigitPrefixOfDigits(ds: string, rest: string)
    requires forall i :: 0 <= i < |ds| ==> IsDigit(ds[i])
    requires rest == [] || !IsDigit(rest[0])
    ensures DigitPrefix(ds + rest) == ds
  {
    if ds != [] {
      assert (ds + rest)[1..] == ds[1..] + rest;
      DigitPrefixOfDigits(ds[1..], rest);
    } else {
      assert ds + rest == rest;
    }
  }

  lemma LeadingNumberOfDigits(m: nat, rest: string)
    requires rest == [] || !IsDigit(rest[0])
    ensures LeadingNumber(NatDigits(m) + rest) == Some(m)
  {
    NatDigitsValue(m);
    DigitPrefixOfDigits(NatDigits(m), rest);
  }

  lemma TrimStartStops(s: string)
    requires s != [] && !IsWhiteSpace(s[0])
    ensures TrimStart(s) == s
  {
  }

  lemma ParseIntReadsNatural(m: nat, rest: string)
    requires rest == [] || !IsDigit(rest[0])
    ensures ParseInt(NatDigits(m) + rest) == Some(m)
  {
    var t := NatDigits(m) + rest;
    assert t[0] == NatDigits(m)[0] && IsDigit(t[0]);
    TrimStartStops(t);
    LeadingNumberOfDigits(m, rest);
  }

  lemma ParseIntReadsNegative(m: nat, rest: string)
    requires rest == [] || !IsDigit(rest[0])
    ensures ParseInt("-" + NatDigits(m) + rest) == Some(-(m as int))
  {
    var u := NatDigits(m) + rest;
    assert "-" + NatDigits(m) + rest == "-" + u;
    ParseIntAfterMinus(u);
    LeadingNumberOfDigits(m, rest);
  }

  lemma ParseIntAfterMinus(u: string)
    ensures ParseInt("-" + u) == match LeadingNumber(u) case None => None case Some(v) => Some(-(v as int))
  {
    var t := "-" + u;
    assert t[0] == '-';
    TrimStartStops(t);
    assert t[1..] == u;
  }

  /** `parseInt` reads back what a template literal wrote, and stops at the
      first character that is not a digit. */
  lemma ParseIntReadsDecimal(n: int, rest: string)
    requires rest == [] || !IsDigit(rest[0])
    ensures ParseInt(DecimalString(n) + rest) == Some(n)
  {
    if n < 0 {
      ParseIntReadsNegative(-n, rest);
    } else {
      ParseIntReadsNatural(n, rest);
    }
  }

  lemma {:induction false} TrimStartIsSuffix(s: string)
    ensures |TrimStart(s)| <= |s| && TrimStart(s) == s[|s| - |TrimStart(s)|..]
  {
    if s != [] && IsWhiteSpace(s[0]) {
      TrimStartIsSuffix(s[1..]);
    }
  }

  // -------------------------------------------------------------------- port

  /** The listen port for the `PORT` environment variable (`None` when unset). */
  function ListenPort(env: Option<string>): (port: Option<int>)
    ensures env.None? || env.value == "" ==> port == Some(5000)
  {
    DefaultPortParses();
    ParseInt(if env.None? || env.value == "" then "5000" else env.value)
  }

  lemma DefaultPortParses()
    ensures ParseInt("5000") == Some(5000)
  {
    var t := "5000";
    assert forall i :: 0 <= i < |t| ==> IsDigit(t[i]);
    DigitPrefixOfDigits(t, []);
    assert t + [] == t;
    assert t[..3] == "500" && "500"[..2] == "50" && "50"[..1] == "5";
    assert DigitsValue(t) == 5000;
  }

  /** Set to a number, `PORT` gives that number. */
  lemma ListenPortReadsDecimal(p: int)
    ensures ListenPort(Some(DecimalString(p))) == Some(p)
  {
    ParseIntReadsDecimal(p, []);
    assert DecimalString(p) + [] == DecimalString(p);
  }

  // --------------------------------------------------------------- log lines

  /** A line longer than 80 characters keeps its first 79 and ends in "…". */
  function Truncate(line: string): (r: string)
    ensures |r| <= MaxLineLength
    ensures |line| <= MaxLineLength ==> r == line
    ensures |line| > MaxLineLength ==>
      |r| == MaxLineLength && StartsWith(line, r[..MaxLineLength - 1]) && r[MaxLineLength - 1] == Ellipsis
  {
    if |line| > MaxLineLength then
      var r := line[..MaxLineLength - 1] + [Ellipsis];
      assert r[..MaxLineLength - 1] == line[..MaxLineLength - 1];
      r
    else line
  }

  /** Cutting a line twice cuts it once. */
  lemma TruncateIdempotent(line: string)
    ensures Truncate(Truncate(line)) == Truncate(line)
  {
  }

  /** `METHOD PATH STATUS in Nms`, the template literal every line starts with. */
  function Head(verb: string, path: string, status: int, durationMs: int): string {
    verb + " " + path + " " + DecimalString(status) + " in " + DecimalString(durationMs) + "ms"
  }

  /** The line before the cut: the head, then ` :: ` and the serialized body
      exactly when the captured body is truthy. */
  function FullLine(verb: string, path: string, status: int, durationMs: int,
                    captured: Option<Json>, stringify: Json -> string): (line: string)
    ensures var head := Head(verb, path, status, durationMs);
      && StartsWith(line, head)
      && (line == head <==> captured.None? || !Truthy(captured.value))
      && (captured.Some? && Truthy(captured.value) ==> line[|head|..] == " :: " + stringify(captured.value))
  {
    var head := Head(verb, path, status, durationMs);
    if captured.Some? && Truthy(captured.value) then
      var line := head + " :: " + stringify(captured.value);
      assert line[..|head|] == head && line[|head|..] == " :: " + stringify(captured.value);
      line
    else
      assert head[..|head|] == head;
      head
  }

  /** The `finish` handler's line: `None` for a path outside `/api`. */
  method LogLine(verb: string, path: string, status: int, durationMs: int,
                 captured: Option<Json>, stringify: Json -> string) returns (line: Option<string>)
    ensures line.Some? <==> StartsWith(path, "/api")
    ensures line.Some? ==> line.value == Truncate(FullLine(verb, path, status, durationMs, captured, stringify))
    ensures line.Some? ==> |line.value| <= MaxLineLength
  {
    if !StartsWith(path, "/api") {
      return None;
    }
    var logLine := Head(verb, path, status, durationMs);
    if captured.Some? && Truthy(captured.value) {
      logLine := logLine + " :: " + stringify(captured.value);
    }
    if |logLine| > MaxLineLength {
      logLine := logLine[..MaxLineLength - 1] + [Ellipsis];
    }
    return Some(logLine);
  }
}
