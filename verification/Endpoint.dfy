/** Reading ports out of endpoints and defaulting endpoints: internal/components/single_endpoint.go and
    internal/components/component.go. */
module Endpoint {
  import opened Wrappers
  import Decimal

  const MAX_INT32: nat := 0x7FFF_FFFF

  datatype PortError = PortNotFound | OutOfRange

  datatype EndpointConfig = EndpointConfig(endpoint: string, listenAddress: string)

  // ---------- Ports ----------

  function DigitsPrefix(s: string): (r: string)
    ensures forall i | 0 <= i < |r| :: Decimal.IsDigit(r[i])
  {
    if s != [] && Decimal.IsDigit(s[0]) then [s[0]] + DigitsPrefix(s[1..]) else []
  }

  /** The digits of the leftmost match of the pattern: a colon, then as many digits as follow it. */
  function FindPort(s: string): (r: Option<string>)
    ensures r.Some? ==> forall i | 0 <= i < |r.value| :: Decimal.IsDigit(r.value[i])
  {
    if |s| < 2 then None
    else if s[0] == ':' && Decimal.IsDigit(s[1]) then Some(DigitsPrefix(s[1..]))
    else FindPort(s[1..])
  }

  function PortFromEndpoint(endpoint: string): Result<nat, PortError> {
    var found := FindPort(endpoint);
    if found.None? then Err(PortNotFound)
    else
      var port := Decimal.Number(found.value);
      if port > MAX_INT32 then Err(OutOfRange) else if port == 0 then Err(PortNotFound) else Ok(port)
  }

  function GetPortNum(c: EndpointConfig): Result<nat, PortError> {
    if c.endpoint != "" then PortFromEndpoint(c.endpoint)
    else if c.listenAddress != "" then PortFromEndpoint(c.listenAddress)
    else Err(PortNotFound)
  }

  function GetPortNumOrDefault(c: EndpointConfig, port: int): int {
    var r := GetPortNum(c);
    if r.Ok? then r.value else port
  }

  predicate HasColon(s: string) { ':' in s }

  /** Whatever stands before the first colon does not matter. */
  lemma {:induction false} FindPortSkips(address: string, rest: string)
    requires !HasColon(address)
    ensures FindPort(address + ":" + rest) == FindPort(":" + rest)
  {
    if address == [] {
      assert address + ":" + rest == ":" + rest;
    } else {
      var s := address + ":" + rest;
      assert s[1..] == address[1..] + ":" + rest;
      assert s[0] == address[0];
      FindPortSkips(address[1..], rest);
    }
  }

  lemma {:induction false} DigitsStop(digits: string, rest: string)
    requires forall i | 0 <= i < |digits| :: Decimal.IsDigit(digits[i])
    requires rest == "" || !Decimal.IsDigit(rest[0])
    ensures DigitsPrefix(digits + rest) == digits
  {
    if digits != [] {
      assert (digits + rest)[1..] == digits[1..] + rest;
      DigitsStop(digits[1..], rest);
    } else {
      assert digits + rest == rest;
    }
  }

  lemma FindHere(s: string)
    requires |s| >= 2 && s[0] == ':' && Decimal.IsDigit(s[1])
    ensures FindPort(s) == Some(DigitsPrefix(s[1..]))
  {
  }

  lemma FindDigits(digits: string, rest: string)
    requires digits != [] && forall i | 0 <= i < |digits| :: Decimal.IsDigit(digits[i])
    requires rest == "" || !Decimal.IsDigit(rest[0])
    ensures FindPort(":" + digits + rest) == Some(digits)
  {
    var s := ":" + digits + rest;
    assert s[1] == digits[0];
    assert s[1..] == digits + rest;
    FindHere(s);
    DigitsStop(digits, rest);
  }

  lemma FindPrinted(port: nat, rest: string)
    requires rest == "" || !Decimal.IsDigit(rest[0])
    ensures FindPort(":" + Decimal.Text(port) + rest) == Some(Decimal.Text(port))
  {
    FindDigits(Decimal.Text(port), rest);
  }

  /** Printing an address and a port and reading the port back: the identity up to the largest 32-bit
      port; zero is no port; what is larger is rejected. */
  lemma PortRoundTrip(address: string, port: nat)
    requires !HasColon(address)
    ensures PortFromEndpoint(address + ":" + Decimal.Text(port)) ==
      if port > MAX_INT32 then Err(OutOfRange) else if port == 0 then Err(PortNotFound) else Ok(port)
  {
    var text := Decimal.Text(port);
    FindPortSkips(address, text);
    assert ":" + text + "" == ":" + text;
    FindPrinted(port, "");
    Decimal.NumberOfDigits(port);
  }

  /** An endpoint that is there decides; only without one is the listen address read, and without either, or
      with a port that cannot be read, the default is taken. */
  lemma PortOfConfig(address: string, port: nat, other: string, default: int)
    requires !HasColon(address)
    ensures var text := address + ":" + Decimal.Text(port);
      var number := if 0 < port <= 0x7FFF_FFFF then port else default;
      && GetPortNumOrDefault(EndpointConfig(text, other), default) == number
      && GetPortNumOrDefault(EndpointConfig("", text), default) == number
      && GetPortNumOrDefault(EndpointConfig("", ""), default) == default
      && (address != "" ==> GetPortNumOrDefault(EndpointConfig(address, text), default) == default)
  {
    PortRoundTrip(address, port);
    NoColonNoPort(address);
  }

  /** A negative port, or any text that does not start with a digit, is not found. */
  lemma {:induction false} NoPort(address: string, rest: string)
    requires !HasColon(address) && !HasColon(rest) && (rest == "" || !Decimal.IsDigit(rest[0]))
    ensures FindPort(address + ":" + rest) == None
  {
    FindPortSkips(address, rest);
    assert (":" + rest)[1..] == rest;
    NoColonNoPort(rest);
  }

  lemma {:induction false} NoColonNoPort(s: string)
    requires !HasColon(s)
    ensures FindPort(s) == None
  {
    if |s| >= 2 { NoColonNoPort(s[1..]); }
  }

  // ---------- Defaulting ----------

  /** The parts between the colons. */
  function Split(s: string): (r: seq<string>)
    ensures r != []
  {
    if s == [] then [""]
    else if s[0] == ':' then [""] + Split(s[1..])
    else [[s[0]] + Split(s[1..])[0]] + Split(s[1..])[1..]
  }

  function Last(parts: seq<string>): string
    requires parts != []
  {
    parts[|parts| - 1]
  }

  /** The endpoint that AddressDefaulter leaves in the config. */
  function DefaultedEndpoint(address: string, port: int, endpoint: string): string {
    if endpoint == "" then address + ":" + Decimal.Text(port)
    else
      var v := Split(endpoint);
      if |v| < 2 || v[0] == "" then address + ":" + Last(v) else endpoint
  }

  function AddressDefaulter(address: string, port: int, config: Option<EndpointConfig>): EndpointConfig {
    var c := if config.Some? then config.value else EndpointConfig("", "");
    c.(endpoint := DefaultedEndpoint(address, port, c.endpoint))
  }

  function AfterLastColon(s: string): string { if !HasColon(s) then s else AfterLastColon(s[1..]) }

  lemma {:induction false} SplitShape(s: string)
    ensures |Split(s)| >= 2 <==> HasColon(s)
    ensures Split(s)[0] == "" <==> s == "" || s[0] == ':'
    ensures !HasColon(s) ==> Split(s) == [s]
  {
    if s != [] {
      SplitShape(s[1..]);
      assert s == [s[0]] + s[1..];
    }
  }

  lemma {:induction false} LastOfSplit(s: string)
    ensures Last(Split(s)) == AfterLastColon(s)
  {
    SplitShape(s);
    if HasColon(s) {
      LastOfSplit(s[1..]);
      SplitShape(s[1..]);
      assert s == [s[0]] + s[1..];
    }
  }

  lemma {:induction false} LastPart(address: string, last: string)
    requires !HasColon(last)
    ensures AfterLastColon(address + ":" + last) == last
  {
    var s := address + ":" + last;
    assert s[|address|] == ':';
    if address == "" {
      assert s[1..] == last;
    } else {
      assert s[1..] == address[1..] + ":" + last;
      LastPart(address[1..], last);
    }
  }

  lemma {:induction false} NoColonAfterLast(s: string)
    ensures !HasColon(AfterLastColon(s))
  {
    if HasColon(s) { NoColonAfterLast(s[1..]); }
  }

  /** Defaulting twice is defaulting once, for every address and every config. */
  lemma DefaultingIsIdempotent(address: string, port: int, config: Option<EndpointConfig>)
    ensures AddressDefaulter(address, port, Some(AddressDefaulter(address, port, config))) ==
      AddressDefaulter(address, port, config)
  {
    var once := AddressDefaulter(address, port, config).endpoint;
    var endpoint := if config.Some? then config.value.endpoint else "";
    var v := Split(endpoint);
    SplitShape(endpoint);
    TextHasNoColon(port);
    if endpoint == "" {
      LastPart(address, Decimal.Text(port));
    } else if |v| < 2 || v[0] == "" {
      LastOfSplit(endpoint);
      NoColonAfterLast(endpoint);
      LastPart(address, Last(v));
    }
    LastOfSplit(once);
  }

  lemma TextHasNoColon(port: int)
    ensures !HasColon(Decimal.Text(port))
  {
  }

  /** Without a config or an endpoint the default address and the port are put together; an endpoint that
      starts with an address and a colon stays; of any other the text behind its last colon, or all of it if it
      has none, is put behind the default address. The listen address stays. */
  lemma AddressDefaulterIs(address: string, port: int, front: string, back: string, listen: string)
    requires !HasColon(back)
    ensures AddressDefaulter(address, port, None) == EndpointConfig(address + ":" + Decimal.Text(port), "")
    ensures AddressDefaulter(address, port, Some(EndpointConfig("", listen))) ==
      EndpointConfig(address + ":" + Decimal.Text(port), listen)
    ensures back != "" ==>
      AddressDefaulter(address, port, Some(EndpointConfig(back, listen))) ==
        EndpointConfig(address + ":" + back, listen)
    ensures AddressDefaulter(address, port, Some(EndpointConfig(front + ":" + back, listen))) ==
      EndpointConfig(if front == "" || front[0] == ':' then address + ":" + back else front + ":" + back, listen)
  {
    SplitShape(back);
    var s := front + ":" + back;
    assert HasColon(s) && s != "" && (s[0] == ':' <==> front == "" || front[0] == ':');
    SplitShape(s);
    LastOfSplit(s);
    LastPart(front, back);
  }

  // ---------- What defaulting does to the port ----------

  /** The port a component listens on, with the port it has by default. */
  function EffectivePort(c: EndpointConfig, port: int): int { GetPortNumOrDefault(c, port) }

  predicate StartsWithDigit(s: string) { s != "" && Decimal.IsDigit(s[0]) }

  /** What a part of an endpoint says about the port: its leading digits if they make a port, otherwise
      the default. */
  function NumberRead(part: string, port: int): int {
    var n := Decimal.Number(DigitsPrefix(part));
    if 0 < n <= MAX_INT32 then n else port
  }

  function FirstNumbered(parts: seq<string>): Option<string> {
    if parts == [] then None else if StartsWithDigit(parts[0]) then Some(parts[0]) else FirstNumbered(parts[1..])
  }

  /** In terms of the text: nothing is there to change, or an address and a colon are; a text without a
      colon does not start with a port other than the default; behind a leading colon the first part that
      starts with a digit, if there is one, reads like the last part. */
  predicate PortIsKept(endpoint: string, port: int) {
    var parts := Split(endpoint);
    if endpoint == "" then true
    else if !HasColon(endpoint) then NumberRead(endpoint, port) == port
    else if endpoint[0] != ':' then true
    else
      var first := FirstNumbered(parts);
      first.Some? ==> NumberRead(first.value, port) == NumberRead(Last(parts), port)
  }

  lemma DigitsPrefixOf(s: string)
    ensures DigitsPrefix(s) == "" <==> !StartsWithDigit(s)
  {
  }

  /** The leading digits of a text are those of its first part. */
  lemma {:induction false} FirstPartDigits(s: string)
    ensures DigitsPrefix(Split(s)[0]) == DigitsPrefix(s) && (StartsWithDigit(Split(s)[0]) <==> StartsWithDigit(s))
  {
    if s != [] && s[0] != ':' {
      FirstPartDigits(s[1..]);
      var part := Split(s)[0];
      assert part[0] == s[0] && part[1..] == Split(s[1..])[0];
    }
  }

  /** The pattern finds the first part behind a colon that starts with a digit. */
  lemma {:induction false} FoundIsFirstNumbered(s: string)
    ensures var first := FirstNumbered(Split(s)[1..]);
      FindPort(s) == if first.Some? then Some(DigitsPrefix(first.value)) else None
  {
    if s != [] {
      var rest := s[1..];
      FoundIsFirstNumbered(rest);
      FirstPartDigits(rest);
      if s[0] == ':' {
        assert Split(s)[1..] == Split(rest);
      } else {
        assert Split(s)[1..] == Split(rest)[1..];
      }
    }
  }

  lemma ReadOfFound(endpoint: string, port: int)
    requires endpoint != ""
    ensures var first := FirstNumbered(Split(endpoint)[1..]);
      EffectivePort(EndpointConfig(endpoint, ""), port) == if first.Some? then NumberRead(first.value, port) else port
  {
    FoundIsFirstNumbered(endpoint);
  }

  /** A text without a colon, read behind one. */
  lemma ReadBehindColon(last: string, port: int)
    requires !HasColon(last)
    ensures EffectivePort(EndpointConfig(":" + last, ""), port) == NumberRead(last, port)
  {
    var s := ":" + last;
    assert s[1..] == last;
    SplitShape(last);
    ReadOfFound(s, port);
    assert Split(s) == [""] + [last];
    assert Split(s)[1..] == [last] && [last][1..] == [];
    DigitsPrefixOf(last);
    assert Decimal.Number("") == 0;
  }

  lemma RewrittenPort(address: string, last: string, port: int)
    requires !HasColon(address)
    ensures EffectivePort(EndpointConfig(address + ":" + last, ""), port) ==
      EffectivePort(EndpointConfig(":" + last, ""), port)
  {
    FindPortSkips(address, last);
  }

  /** Defaulting keeps the effective port if and only if the text says so. */
  lemma DefaultingKeepsPortIff(address: string, port: int, c: EndpointConfig)
    requires !HasColon(address) && port <= MAX_INT32
    ensures var effective := EffectivePort(c, port);
      EffectivePort(AddressDefaulter(address, effective, Some(c)), port) == effective <==> PortIsKept(c.endpoint, port)
  {
    var effective, parts := EffectivePort(c, port), Split(c.endpoint);
    SplitShape(c.endpoint);
    if c.endpoint == "" {
      if effective >= 0 {
        PortRoundTrip(address, effective);
      } else {
        TextHasNoColon(effective);
        NoPort(address, Decimal.Text(effective));
      }
    } else {
      RewrittenPort(address, Last(parts), port);
      LastOfSplit(c.endpoint);
      NoColonAfterLast(c.endpoint);
      ReadBehindColon(Last(parts), port);
      ReadOfFound(c.endpoint, port);
      if c.endpoint[0] == ':' { LeadingColon(c.endpoint, port); }
    }
  }

  /** Behind a leading colon the empty first part takes no part in the search; and if no part starts with
      a digit, the last does not either. */
  lemma LeadingColon(endpoint: string, port: int)
    requires endpoint != "" && endpoint[0] == ':'
    ensures FirstNumbered(Split(endpoint)) == FirstNumbered(Split(endpoint)[1..])
    ensures FirstNumbered(Split(endpoint)).None? ==> NumberRead(Last(Split(endpoint)), port) == port
  {
    var parts := Split(endpoint);
    assert parts[0] == "";
    if FirstNumbered(parts).None? {
      NoneNumbered(parts, |parts| - 1);
      DigitsPrefixOf(Last(parts));
      assert Decimal.Number("") == 0;
    }
  }

  lemma {:induction false} NoneNumbered(parts: seq<string>, i: nat)
    requires FirstNumbered(parts).None? && i < |parts|
    ensures !StartsWithDigit(parts[i])
  {
    if i > 0 {
      NoneNumbered(parts[1..], i - 1);
      assert parts[1..][i - 1] == parts[i];
    }
  }

  /** So it is always kept with exactly one colon. */
  lemma OneColonKeepsPort(endpoint: string, port: int)
    requires |Split(endpoint)| == 2
    ensures PortIsKept(endpoint, port)
  {
    SplitShape(endpoint);
    var parts := Split(endpoint);
    assert parts[1..] == [Last(parts)] && [Last(parts)][1..] == [];
    if endpoint[0] == ':' { LeadingColon(endpoint, port); }
  }

  lemma NumberOfPrinted(p: nat, port: int)
    requires 0 < p <= MAX_INT32
    ensures NumberRead(Decimal.Text(p), port) == p && StartsWithDigit(Decimal.Text(p))
  {
    var x := Decimal.Text(p);
    DigitsStop(x, "");
    assert x + "" == x;
    Decimal.NumberOfDigits(p);
  }

  /** It is not kept for a bare number, which only the defaulting takes for a port. */
  lemma DefaultingMovesBareNumber(p: nat, port: int)
    requires 0 < p <= MAX_INT32 && p != port
    ensures !PortIsKept(Decimal.Text(p), port)
  {
    TextHasNoColon(p);
    NumberOfPrinted(p, port);
  }

  /** Nor for two different ports behind an empty address, of which reading takes the first. */
  lemma DefaultingMovesSecondPort(p: nat, q: nat, port: int)
    requires 0 < p <= MAX_INT32 && 0 < q <= MAX_INT32 && p != q
    ensures !PortIsKept(":" + Decimal.Text(p) + ":" + Decimal.Text(q), port)
  {
    var x, y := Decimal.Text(p), Decimal.Text(q);
    TextHasNoColon(p);
    TextHasNoColon(q);
    NumberOfPrinted(p, port);
    NumberOfPrinted(q, port);
    SplitTwo(x, y);
    var s := ":" + x + ":" + y;
    assert s[0] == ':' && HasColon(s);
    LeadingColon(s, port);
    assert Split(s)[1..] == [x, y];
    assert FirstNumbered([x, y]) == Some(x);
  }

  lemma SplitTwo(x: string, y: string)
    requires !HasColon(x) && !HasColon(y)
    ensures Split(":" + x + ":" + y) == ["", x, y]
  {
    var s := ":" + x + ":" + y;
    assert s[1..] == x + ":" + y;
    SplitBehind(x, y);
  }

  lemma {:induction false} SplitBehind(x: string, y: string)
    requires !HasColon(x) && !HasColon(y)
    ensures Split(x + ":" + y) == [x, y]
  {
    var s := x + ":" + y;
    if x == "" {
      assert s[1..] == y;
      SplitShape(y);
    } else {
      assert s[1..] == x[1..] + ":" + y;
      SplitBehind(x[1..], y);
      assert x == [x[0]] + x[1..];
    }
  }
}
