/** Reading and printing of "host:port" with an IPv4 host in dotted decimal. */
module Endpoint {
  import opened Base

  const MAX_PORT: nat := 65535
  const WORD: nat := 0x1_0000_0000

  datatype Address = Address(host: string, port: nat)
  datatype Parsed = Endpoint(address: Address) | Rejected(code: int)

  // ---------------------------------------------------------------- hosts

  predicate IsDigit(c: char) { '0' <= c <= '9' }

  function Digit(c: char): nat
    requires IsDigit(c)
  {
    c as int - '0' as int
  }

  predicate AllDigits(s: string) { forall i :: 0 <= i < |s| ==> IsDigit(s[i]) }

  /** The number a string of decimal digits stands for, of whatever length. */
  function Value(s: string): nat
    requires AllDigits(s)
  {
    if s == [] then 0 else 10 * Value(s[..|s| - 1]) + Digit(s[|s| - 1])
  }

  predicate IsOctet(s: string) { 1 <= |s| <= 3 && AllDigits(s) && Value(s) <= 255 }

  /** Where a character first occurs, or the length. */
  function First(s: string, c: char): (i: nat)
    ensures i <= |s| && (i < |s| ==> s[i] == c)
  {
    if s == [] || s[0] == c then 0 else 1 + First(s[1..], c)
  }

  /** `n` numbers from 0 to 255, of up to three digits, separated by dots. */
  predicate Octets(s: string, n: nat)
  {
    if n <= 1 then IsOctet(s)
    else var dot := First(s, '.'); dot < |s| && IsOctet(s[..dot]) && Octets(s[dot + 1..], n - 1)
  }

  /** What a C function sees of a string: the part before the first NUL. */
  function CString(s: string): string { s[..First(s, '\0')] }

  /**
   * What `inet_pton` accepts by section 6.3 of RFC 3493: dotted decimal. C libraries differ on leading
   * zeros in an octet, so the verdict of `inet_pton` is a parameter below and this is one of them.
   */
  predicate DottedDecimal(s: string) { Octets(s, 4) }

  /** A host is not empty, and `inet_pton` accepts what it sees of it. */
  predicate ValidHost(pton: string -> bool, host: string) { host != [] && pton(CString(host)) }

  // ---------------------------------------------------------------- ports

  predicate ValidPort(text: string) { text != [] && AllDigits(text) && Value(text) <= MAX_PORT }

  lemma {:induction false} PrefixIsSmaller(s: string, n: nat)
    requires AllDigits(s) && n <= |s|
    ensures AllDigits(s[..n]) && Value(s[..n]) <= Value(s)
    decreases |s|
  {
    if n == |s| {
      assert s[..n] == s;
    } else {
      var front := s[..|s| - 1];
      PrefixIsSmaller(front, n);
      assert front[..n] == s[..n];
    }
  }

  /** Appending a digit to a number that fits stays far below the 32-bit limit. */
  lemma OneMoreDigit(text: string, i: nat)
    requires i < |text| && AllDigits(text[..i]) && Value(text[..i]) <= MAX_PORT && IsDigit(text[i])
    ensures AllDigits(text[..i + 1]) && Value(text[..i + 1]) == 10 * Value(text[..i]) + Digit(text[i]) < WORD
    ensures (Value(text[..i]) * 10 % WORD + Digit(text[i])) % WORD == Value(text[..i + 1])
  {
    assert text[..i + 1][..i] == text[..i];
  }

  /** The port loop: its 32-bit accumulator never wraps, however long the text is. */
  method ParsePort(text: string) returns (r: Option<nat>)
    ensures r == if AllDigits(text) && Value(text) <= MAX_PORT then Some(Value(text)) else None
  {
    var port := 0;
    for i := 0 to |text|
      invariant AllDigits(text[..i]) && port == Value(text[..i]) <= MAX_PORT
    {
      var c := text[i];
      if c < '0' || c > '9' { return None; }
      OneMoreDigit(text, i);
      port := (port * 10 % WORD + Digit(c)) % WORD;
      if port > MAX_PORT {
        if AllDigits(text) { PrefixIsSmaller(text, i + 1); }
        return None;
      }
    }
    assert text[..|text|] == text;
    r := Some(port);
  }

  // ---------------------------------------------------------------- parsing

  /** `rfind(':')`: where the last colon is, or the length. */
  function LastColon(s: string): (i: nat)
    ensures i <= |s| && (i < |s| ==> s[i] == ':')
    ensures forall j :: i < j < |s| ==> s[j] != ':'
    ensures i == |s| ==> ':' !in s
  {
    if s == [] then 0
    else if s[|s| - 1] == ':' then |s| - 1
    else
      var i := LastColon(s[..|s| - 1]);
      if i == |s| - 1 then |s| else i
  }

  /** A colon with no colon after it is the one that is found. */
  lemma LastColonIs(s: string, i: nat)
    requires i < |s| && s[i] == ':' && forall j :: i < j < |s| ==> s[j] != ':'
    ensures LastColon(s) == i
  {
    assert ':' in s;
  }

  function Parse(pton: string -> bool, s: string): Parsed
  {
    var colon := LastColon(s);
    if colon == |s| || colon == 0 || colon + 1 >= |s| then Rejected(EINVAL)
    else
      var host, text := s[..colon], s[colon + 1..];
      if !(AllDigits(text) && Value(text) <= MAX_PORT) then Rejected(EINVAL)
      else if !pton(CString(host)) then Rejected(EINVAL)
      else Endpoint(Address(host, Value(text)))
  }

  method ParseIpv4Endpoint(pton: string -> bool, s: string) returns (r: Parsed)
    ensures r == Parse(pton, s)
  {
    var colon := LastColon(s);
    if colon == |s| || colon == 0 || colon + 1 >= |s| { return Rejected(EINVAL); }
    var host, text := s[..colon], s[colon + 1..];
    var port := ParsePort(text);
    if port.None? { return Rejected(EINVAL); }
    if !pton(CString(host)) { return Rejected(EINVAL); }
    r := Endpoint(Address(host, port.value));
  }

  // ---------------------------------------------------------------- printing

  function DigitChar(d: nat): (c: char)
    requires d < 10
    ensures IsDigit(c) && Digit(c) == d
  {
    ('0' as int + d) as char
  }

  /** `std::to_string` of an unsigned number. */
  function Decimal(n: nat): string
  {
    if n < 10 then [DigitChar(n)] else Decimal(n / 10) + [DigitChar(n % 10)]
  }

  function Format(a: Address): string { a.host + ":" + Decimal(a.port) }

  predicate Canonical(text: string) { |text| == 1 || (text != [] && text[0] != '0') }

  /** What is printed is read back as the same number, and has no needless zero. */
  lemma {:induction false} DecimalIsRead(n: nat)
    ensures Decimal(n) != [] && AllDigits(Decimal(n)) && Value(Decimal(n)) == n
    ensures Canonical(Decimal(n)) && (n > 0 ==> Decimal(n)[0] != '0')
  {
    var text := Decimal(n);
    if n < 10 {
      assert text[..0] == [];
    } else {
      DecimalIsRead(n / 10);
      assert text[..|text| - 1] == Decimal(n / 10);
    }
  }

  lemma {:induction false} CanonicalIsPositive(text: string)
    requires AllDigits(text) && text != [] && text[0] != '0'
    ensures Value(text) > 0
    decreases |text|
  {
    if |text| > 1 {
      CanonicalIsPositive(text[..|text| - 1]);
    } else {
      assert text[..0] == [];
    }
  }

  /** Only the canonical text of a number is printed. */
  lemma {:induction false} PrintedIffCanonical(text: string)
    requires AllDigits(text) && text != []
    ensures Decimal(Value(text)) == text <==> Canonical(text)
    decreases |text|
  {
    DecimalIsRead(Value(text));
    if |text| == 1 {
      assert text[..0] == [];
      assert Value(text) == Digit(text[0]);
    } else if text[0] != '0' {
      var front := text[..|text| - 1];
      CanonicalIsPositive(front);
      PrintedIffCanonical(front);
      assert text == front + [text[|text| - 1]];
      assert Value(text) / 10 == Value(front) && Value(text) % 10 == Digit(text[|text| - 1]);
    }
  }

  // ---------------------------------------------------------------- the two together

  lemma SplitsAtTheColon(host: string, text: string)
    requires AllDigits(text)
    ensures var s := host + ":" + text;
            LastColon(s) == |host| && s[..|host|] == host && s[|host| + 1..] == text
  {
    var s := host + ":" + text;
    forall j | |host| < j < |s| ensures s[j] != ':' { assert s[j] == text[j - |host| - 1]; }
    LastColonIs(s, |host|);
  }

  /** Dotted decimal never accepts the empty string, so a host that starts with a NUL is refused. */
  lemma NoEmptyHost(host: string)
    requires host == [] || host[0] == '\0'
    ensures !ValidHost(DottedDecimal, host)
  {
    assert CString(host) == [];
  }

  /** The grammar: a text is accepted exactly if it is a valid host, a colon and a valid port. */
  lemma AcceptedTexts(pton: string -> bool, s: string, host: string, port: nat)
    ensures Parse(pton, s) == Endpoint(Address(host, port)) <==>
            exists text :: s == host + ":" + text && ValidHost(pton, host) && ValidPort(text) && Value(text) == port
  {
    if Parse(pton, s) == Endpoint(Address(host, port)) {
      var text := s[|host| + 1..];
      assert s == host + ":" + text && ValidHost(pton, host) && ValidPort(text) && Value(text) == port;
    }
    if text :| s == host + ":" + text && ValidHost(pton, host) && ValidPort(text) && Value(text) == port {
      SplitsAtTheColon(host, text);
    }
  }

  /** Printing and parsing an endpoint gives it back if and only if its host is valid. */
  lemma PrintThenParse(pton: string -> bool, a: Address)
    requires a.port <= MAX_PORT
    ensures Parse(pton, Format(a)) == Endpoint(a) <==> ValidHost(pton, a.host)
  {
    DecimalIsRead(a.port);
    SplitsAtTheColon(a.host, Decimal(a.port));
  }

  /** Every accepted text, printed and parsed again, means the same. */
  lemma ParsePrintParse(pton: string -> bool, s: string)
    requires Parse(pton, s).Endpoint?
    ensures Parse(pton, Format(Parse(pton, s).address)) == Parse(pton, s)
    ensures Parse(pton, s).address.port <= MAX_PORT
  {
    PrintThenParse(pton, Parse(pton, s).address);
  }

  /** It is printed unchanged if and only if its port was written without leading zeros. */
  lemma ParseThenPrint(pton: string -> bool, s: string)
    requires Parse(pton, s).Endpoint?
    ensures Format(Parse(pton, s).address) == s <==> Canonical(s[LastColon(s) + 1..])
  {
    var a, text := Parse(pton, s).address, s[LastColon(s) + 1..];
    PrintedIffCanonical(text);
    assert s == a.host + ":" + text;
    if Format(a) == s {
      SplitsAtTheColon(a.host, text);
      DecimalIsRead(a.port);
      SplitsAtTheColon(a.host, Decimal(a.port));
    }
  }
}
