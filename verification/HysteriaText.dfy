/** Addresses as text, crates/hysteria2/src/wire.rs: `address` and `parse_address`, on UTF-8
    bytes. The text form of socket addresses is a parameter. */
module HysteriaText {
  import opened Common

  datatype Ip = V4(value: nat) | V6(value: nat)

  datatype Error = AddressTooLong | InvalidDomain | MissingPort | InvalidPort | NotUtf8
    | PayloadTooLong | TooSmall | TooMany | Short | InvalidIndex | InvalidLength | Inconsistent | Oversized

  datatype Target = Domain(name: Bytes, port: nat) | IpTarget(address: Ip, port: nat)

  const MAX_ADDRESS: nat := 2048
  const COLON: byte := 58
  const PLUS: byte := 43
  const ZERO: byte := 48

  // ---------------------------------------------------------------- UTF-8

  predicate Continuation(b: byte) { 0x80 <= b <= 0xBF }

  /** Length of the first well-formed character, zero if there is none. */
  function CharLength(s: Bytes): nat {
    if s == [] then 0
    else if s[0] < 0x80 then 1
    else if |s| < 2 || !Continuation(s[1]) then 0
    else if 0xC2 <= s[0] <= 0xDF then 2
    else if |s| < 3 || !Continuation(s[2]) then 0
    else if s[0] == 0xE0 then (if s[1] >= 0xA0 then 3 else 0)
    else if s[0] == 0xED then (if s[1] <= 0x9F then 3 else 0)
    else if 0xE1 <= s[0] <= 0xEF then 3
    else if |s| < 4 || !Continuation(s[3]) then 0
    else if s[0] == 0xF0 then (if s[1] >= 0x90 then 4 else 0)
    else if 0xF1 <= s[0] <= 0xF3 then 4
    else if s[0] == 0xF4 then (if s[1] <= 0x8F then 4 else 0)
    else 0
  }

  predicate Utf8(s: Bytes)
    decreases |s|
  {
    s == [] || (0 < CharLength(s) <= |s| && Utf8(s[CharLength(s)..]))
  }

  /** More bytes do not change the first character. */
  lemma FirstCharStays(a: Bytes, b: Bytes)
    requires CharLength(a) > 0
    ensures CharLength(a + b) == CharLength(a)
  {
    var s := a + b;
    assert forall i :: 0 <= i < |a| ==> s[i] == a[i];
  }

  lemma Utf8Step(s: Bytes, n: nat)
    requires 0 < n <= |s| && CharLength(s) == n && Utf8(s[n..])
    ensures Utf8(s)
  {}

  lemma {:induction false} Utf8Concat(a: Bytes, b: Bytes)
    requires Utf8(a) && Utf8(b)
    ensures Utf8(a + b)
    decreases |a|
  {
    if a == [] {
      assert a + b == b;
    } else {
      Utf8Concat(a[CharLength(a)..], b);
      Utf8Prepend(a, b, CharLength(a));
    }
  }

  lemma Utf8Prepend(a: Bytes, b: Bytes, n: nat)
    requires 0 < n <= |a| && CharLength(a) == n && Utf8(a[n..] + b)
    ensures Utf8(a + b)
  {
    FirstCharStays(a, b);
    assert (a + b)[n..] == a[n..] + b;
    Utf8Step(a + b, n);
  }

  lemma {:induction false} AsciiIsUtf8(s: Bytes)
    requires forall i :: 0 <= i < |s| ==> s[i] < 0x80
    ensures Utf8(s)
    decreases |s|
  {
    if s != [] {
      AsciiIsUtf8(s[1..]);
    }
  }

  /** An ASCII byte is a character boundary. */
  lemma {:induction false} SplitAtAscii(s: Bytes, i: nat)
    requires Utf8(s) && i < |s| && s[i] < 0x80
    ensures Utf8(s[..i])
    decreases |s|
  {
    if i != 0 {
      var n := CharLength(s);
      assert n <= i;
      assert s[n..][i - n] == s[i];
      SplitAtAscii(s[n..], i - n);
      assert s[n..][..i - n] == s[n..i];
      assert CharLength(s[..i]) == n;
      assert s[..i][n..] == s[n..i];
    }
  }

  // ---------------------------------------------------------------- ports

  /** Decimal digits without leading zeros. */
  function Digits(n: nat): (s: Bytes)
    ensures |s| > 0 && forall i :: 0 <= i < |s| ==> ZERO <= s[i] < ZERO + 10
  {
    if n < 10 then [ZERO + n] else Digits(n / 10) + [ZERO + n % 10]
  }

  predicate AllDigits(s: Bytes) { forall i :: 0 <= i < |s| ==> ZERO <= s[i] < ZERO + 10 }

  function Decimal(s: Bytes): nat
    requires AllDigits(s)
  {
    if s == [] then 0 else Decimal(s[..|s| - 1]) * 10 + (s[|s| - 1] - ZERO) as nat
  }

  /** A `u16`: one leading plus sign and leading zeros are allowed. */
  function ParsePort(s: Bytes): (r: Result<nat, Error>)
    ensures r.Ok? ==> r.value < 65536
  {
    var digits := if s != [] && s[0] == PLUS then s[1..] else s;
    if digits == [] || !AllDigits(digits) || Decimal(digits) >= 65536 then Err(InvalidPort)
    else Ok(Decimal(digits))
  }

  lemma {:induction false} DecimalOfDigits(n: nat)
    ensures Decimal(Digits(n)) == n
  {
    if n >= 10 {
      DecimalOfDigits(n / 10);
      assert Digits(n)[..|Digits(n)| - 1] == Digits(n / 10);
    }
  }

  lemma PortRoundTrip(n: nat)
    requires n < 65536
    ensures ParsePort(Digits(n)) == Ok(n)
  {
    DecimalOfDigits(n);
  }

  // ---------------------------------------------------------------- addresses

  /** How the platform prints and parses socket addresses. */
  datatype SocketText = SocketText(show: (Ip, nat) -> Bytes, parse: Bytes -> Option<(Ip, nat)>)

  predicate ValidIp(ip: Ip) {
    if ip.V4? then ip.value < 0x1_0000_0000 else ip.value < 0x1_0000_0000_0000_0000_0000_0000_0000_0000
  }

  ghost predicate RoundTrips(text: SocketText) {
    forall ip: Ip, port: nat | ValidIp(ip) && port < 65536 ::
      var shown := text.show(ip, port);
      text.parse(shown) == Some((ip, port)) && Utf8(shown) && |shown| <= 64
  }

  ghost predicate ParsesValid(text: SocketText) {
    forall s :: text.parse(s).Some? ==> ValidIp(text.parse(s).value.0) && text.parse(s).value.1 < 65536
  }

  /** Names are strings, ports are `u16`. */
  predicate WellTyped(target: Target) {
    target.port < 65536 && if target.Domain? then Utf8(target.name) else ValidIp(target.address)
  }

  predicate Forbidden(b: byte) { b == COLON || b == 91 || b == 93 || b == 0 }

  predicate ValidName(name: Bytes) { name != [] && forall i :: 0 <= i < |name| ==> !Forbidden(name[i]) }

  function Address(text: SocketText, target: Target): Result<Bytes, Error> {
    if target.IpTarget? then
      var value := text.show(target.address, target.port);
      if |value| <= MAX_ADDRESS then Ok(value) else Err(AddressTooLong)
    else if !ValidName(target.name) then Err(InvalidDomain)
    else
      var value := target.name + [COLON] + Digits(target.port);
      if |value| <= MAX_ADDRESS then Ok(value) else Err(AddressTooLong)
  }

  /** The position of the last colon, if any. */
  function LastColon(s: Bytes): (r: Option<nat>)
    ensures r.Some? ==> r.value < |s| && s[r.value] == COLON && forall i :: r.value < i < |s| ==> s[i] != COLON
    ensures r.None? ==> COLON !in s
  {
    if s == [] then None
    else if s[|s| - 1] == COLON then Some(|s| - 1)
    else LastColon(s[..|s| - 1])
  }

  function ParseAddress(text: SocketText, value: Bytes): Result<Target, Error> {
    if |value| > MAX_ADDRESS then Err(AddressTooLong)
    else if text.parse(value).Some? then
      Ok(IpTarget(text.parse(value).value.0, text.parse(value).value.1))
    else
      var colon := LastColon(value);
      if colon.None? then Err(MissingPort)
      else
        var name := value[..colon.value];
        if !ValidName(name) then Err(InvalidDomain)
        else
          var port := ParsePort(value[colon.value + 1..]);
          if port.Err? then Err(port.error) else Ok(Domain(name, port.value))
  }

  /** Printing then parsing gives the target back exactly when it is an IP target or its text is
      not itself a socket address. */
  lemma AddressRoundTrip(text: SocketText, target: Target)
    requires RoundTrips(text) && WellTyped(target) && Address(text, target).Ok?
    ensures Utf8(Address(text, target).value) && |Address(text, target).value| <= MAX_ADDRESS
    ensures ParseAddress(text, Address(text, target).value) == Ok(target) <==>
      target.IpTarget? || text.parse(Address(text, target).value).None?
  {
    if target.IpTarget? {
      assert text.parse(text.show(target.address, target.port)) == Some((target.address, target.port));
    } else {
      DomainIsUtf8(target.name, Digits(target.port));
      if text.parse(Address(text, target).value).None? {
        DomainRoundTrip(text, target.name, target.port);
      }
    }
  }

  lemma DomainIsUtf8(name: Bytes, port: Bytes)
    requires Utf8(name) && AllDigits(port)
    ensures Utf8(name + [COLON] + port)
  {
    var tail := [COLON] + port;
    AsciiIsUtf8(tail);
    Utf8Concat(name, tail);
    assert name + [COLON] + port == name + tail;
  }

  lemma DomainRoundTrip(text: SocketText, name: Bytes, port: nat)
    requires port < 65536 && ValidName(name) && |name + [COLON] + Digits(port)| <= MAX_ADDRESS
    requires text.parse(name + [COLON] + Digits(port)).None?
    ensures ParseAddress(text, name + [COLON] + Digits(port)) == Ok(Domain(name, port))
  {
    DomainText(name, Digits(port));
    PortRoundTrip(port);
  }

  lemma DomainText(name: Bytes, port: Bytes)
    requires AllDigits(port)
    ensures LastColon(name + [COLON] + port) == Some(|name|)
    ensures (name + [COLON] + port)[..|name|] == name && (name + [COLON] + port)[|name| + 1..] == port
  {
    var value := name + [COLON] + port;
    assert value[|name|] == COLON && COLON in value;
    forall i | |name| < i < |value|
      ensures value[i] != COLON
    {
      assert value[i] == port[i - |name| - 1];
    }
  }

  /** A name spelled like an address: the domain target comes back as that address. */
  lemma LiteralReadsAsAddress(text: SocketText, ip: Ip, name: Bytes, port: nat)
    requires RoundTrips(text) && ValidIp(ip) && port < 65536 && ValidName(name)
    requires text.show(ip, port) == name + [COLON] + Digits(port)
    ensures Address(text, Domain(name, port)) == Ok(text.show(ip, port))
    ensures ParseAddress(text, Address(text, Domain(name, port)).value) == Ok(IpTarget(ip, port))
  {
    assert text.parse(text.show(ip, port)) == Some((ip, port)) && |text.show(ip, port)| <= 64;
  }

  /** When printing a target succeeds. */
  lemma AddressOkExactly(text: SocketText, target: Target)
    requires RoundTrips(text) && WellTyped(target)
    ensures Address(text, target).Ok? <==>
      target.IpTarget? || (ValidName(target.name) && |target.name| + 1 + |Digits(target.port)| <= MAX_ADDRESS)
  {
    if target.IpTarget? {
      assert |text.show(target.address, target.port)| <= 64;
    }
  }

  /** What parsing accepts is again a well-typed target, with a name that can be printed. */
  lemma ParsedIsWellTyped(text: SocketText, value: Bytes)
    requires ParsesValid(text) && Utf8(value) && ParseAddress(text, value).Ok?
    ensures WellTyped(ParseAddress(text, value).value)
    ensures ParseAddress(text, value).value.Domain? ==> ValidName(ParseAddress(text, value).value.name)
  {
    if text.parse(value).None? {
      SplitAtAscii(value, LastColon(value).value);
    }
  }
}
