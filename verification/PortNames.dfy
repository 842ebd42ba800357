/** The names of ports: internal/naming/port.go. */
module PortNames {
  import Decimal
  import opened Truncate

  const MAX_PORT_NAME: nat := 15

  function FallbackPortName(port: int): string { "port-" + Decimal.Text(port) }

  function Replaced(c: char): char { if c == '/' || c == '_' then '-' else c }

  function ReplaceAll(s: string): (r: string)
    ensures |r| == |s|
  {
    seq(|s|, i requires 0 <= i < |s| => Replaced(s[i]))
  }

  predicate IsPortChar(c: char) { IsAlnum(c) || c == '-' || c == '_' || c == '.' }

  /** The pattern of port.go: empty, or alphanumeric at both ends. */
  predicate MatchesDnsLabel(s: string) {
    s == "" || (IsAlnum(s[0]) && IsAlnum(s[|s| - 1]) && forall i | 0 <= i < |s| :: IsPortChar(s[i]))
  }

  function PortName(receiverName: string, port: int): string {
    var candidate := ReplaceAll(receiverName);
    if |receiverName| > MAX_PORT_NAME || !MatchesDnsLabel(candidate) then FallbackPortName(port) else candidate
  }

  /** A name of at most fifteen characters that is empty, or starts and ends with a letter or digit and has
      besides these only hyphens, underscores, dots and slashes, is kept with slashes and underscores as
      hyphens; any other gives way to the number. */
  lemma PortNameIs(receiverName: string, port: int)
    ensures var n, r := |receiverName|, PortName(receiverName, port);
      if && n <= 15
         && (n > 0 ==> IsAlnum(receiverName[0]) && IsAlnum(receiverName[n - 1]))
         && forall i | 0 <= i < n :: IsAlnum(receiverName[i]) || receiverName[i] in {'-', '_', '.', '/'}
      then |r| == n && forall i | 0 <= i < n :: r[i] == if receiverName[i] in {'/', '_'} then '-' else receiverName[i]
      else r == "port-" + Decimal.Text(port)
  {
    var n, candidate := |receiverName|, ReplaceAll(receiverName);
    if n <= 15 {
      assert forall i | 0 <= i < n :: IsAlnum(candidate[i]) <==> IsAlnum(receiverName[i]);
      assert forall i | 0 <= i < n ::
        IsPortChar(candidate[i]) <==> IsAlnum(receiverName[i]) || receiverName[i] in {'-', '_', '.', '/'};
    }
  }

  lemma FallbackShape(port: int)
    ensures var s := FallbackPortName(port);
      && MatchesDnsLabel(s) && ReplaceAll(s) == s && (forall i | 0 <= i < |s| :: IsLower(s[i]) || s[i] == '-')
      && IsLower(s[0]) && IsLower(s[|s| - 1])
  {
    var s := FallbackPortName(port);
    assert forall i | 0 <= i < |s| :: IsLower(s[i]) || s[i] == '-';
    assert ReplaceAll(s) == s;
  }

  lemma FallbackFits(port: int)
    requires 0 <= port < 0x8000_0000
    ensures |FallbackPortName(port)| <= MAX_PORT_NAME
  {
    Decimal.Int32Fits(port);
  }

  /** At most fifteen characters for every port number. */
  lemma PortNameFits(receiverName: string, port: int)
    requires 0 <= port < 0x8000_0000
    ensures |PortName(receiverName, port)| <= MAX_PORT_NAME
  {
    FallbackFits(port);
  }

  /** Naming a port by its own name changes nothing, whatever the number. */
  lemma PortNameIsStable(receiverName: string, port: int)
    ensures PortName(PortName(receiverName, port), port) == PortName(receiverName, port)
  {
    FallbackShape(port);
    var candidate := ReplaceAll(receiverName);
    assert ReplaceAll(candidate) == candidate;
  }

  /** What sends a name to the fallback. */
  predicate FallsBack(receiverName: string) {
    |receiverName| > MAX_PORT_NAME || !MatchesDnsLabel(ReplaceAll(receiverName))
  }

  /** The result is a label exactly when the name is too long or does not match the pattern, or is not
      empty and has no upper-case letter and no dot: neither of these is replaced or rejected. */
  lemma PortNameIsLabelIff(receiverName: string, port: int)
    requires 0 <= port < 0x8000_0000
    ensures IsLabel(PortName(receiverName, port)) <==>
      FallsBack(receiverName)
      || (receiverName != "" && forall i | 0 <= i < |receiverName| ::
          receiverName[i] != '.' && !IsUpper(receiverName[i]))
  {
    FallbackShape(port);
    FallbackFits(port);
    var candidate := ReplaceAll(receiverName);
    if !FallsBack(receiverName) && IsLabel(candidate) {
      forall i | 0 <= i < |receiverName| ensures receiverName[i] != '.' && !IsUpper(receiverName[i]) {
        assert IsLower(candidate[i]) || candidate[i] == '-';
      }
    }
  }

  /** Capitals and dots do get through. */
  lemma PortNameNeedNotBeLabel(port: int)
    requires 0 <= port < 0x8000_0000
    ensures PortName("OTLP", port) == "OTLP" && !IsLabel(PortName("OTLP", port))
    ensures PortName("a.b", port) == "a.b" && !IsLabel(PortName("a.b", port))
  {
    assert ReplaceAll("OTLP") == "OTLP" && ReplaceAll("a.b") == "a.b";
    assert IsUpper("OTLP"[0]) && "a.b"[1] == '.';
    PortNameIsLabelIff("OTLP", port);
    PortNameIsLabelIff("a.b", port);
  }
}
