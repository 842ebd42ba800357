/** Truncate of internal/naming/triming.go and DNSName of internal/naming/dns.go, on strings of
    one-byte characters. */
module Truncate {
  import Decimal

  // ---------- Characters ----------

  predicate IsLower(c: char) { 'a' <= c <= 'z' || '0' <= c <= '9' }

  predicate IsUpper(c: char) { 'A' <= c <= 'Z' }

  predicate IsAlnum(c: char) { IsLower(c) || IsUpper(c) }

  function ToLower(c: char): char { if IsUpper(c) then c - 'A' + 'a' else c }

  /** In terms of character codes. */
  lemma CharacterCodes(c: char)
    ensures IsLower(c) <==> 97 <= c as int <= 122 || 48 <= c as int <= 57
    ensures IsUpper(c) <==> 65 <= c as int <= 90
    ensures ToLower(c) as int == if 65 <= c as int <= 90 then c as int + 32 else c as int
  {
  }

  /** A label in the form of section 2.1 of RFC 1123, in lower case. */
  predicate IsLabel(s: string) {
    && 0 < |s| <= 63 && IsLower(s[0]) && IsLower(s[|s| - 1])
    && forall i | 0 <= i < |s| :: IsLower(s[i]) || s[i] == '-'
  }

  // ---------- Formats ----------

  /** A format is cut into its literal text and its verbs, each with a value of its own. */
  datatype Piece = Lit(text: string) | Hole

  datatype Value = Str(text: string) | Num(number: int)

  function ValueText(v: Value): string { if v.Str? then v.text else Decimal.Text(v.number) }

  function Holes(format: seq<Piece>): nat {
    if format == [] then 0 else (if format[0].Hole? then 1 else 0) + Holes(format[1..])
  }

  function Sprintf(format: seq<Piece>, values: seq<Value>): string
    requires Holes(format) == |values|
  {
    if format == [] then ""
    else if format[0].Lit? then format[0].text + Sprintf(format[1..], values)
    else ValueText(values[0]) + Sprintf(format[1..], values[1..])
  }

  /** The length of what truncation cannot shorten: literal text and numbers. */
  function LitLength(format: seq<Piece>): nat {
    if format == [] then 0 else (if format[0].Lit? then |format[0].text| else 0) + LitLength(format[1..])
  }

  function NumLength(values: seq<Value>): nat {
    if values == [] then 0 else (if values[0].Num? then |ValueText(values[0])| else 0) + NumLength(values[1..])
  }

  function StrLength(values: seq<Value>): nat {
    if values == [] then 0 else (if values[0].Str? then |values[0].text| else 0) + StrLength(values[1..])
  }

  function FixedLength(format: seq<Piece>, values: seq<Value>): nat { LitLength(format) + NumLength(values) }

  lemma {:induction false} SprintfLength(format: seq<Piece>, values: seq<Value>)
    requires Holes(format) == |values|
    ensures |Sprintf(format, values)| == FixedLength(format, values) + StrLength(values)
  {
    if format != [] { SprintfLength(format[1..], if format[0].Hole? then values[1..] else values); }
  }

  // ---------- Shortening the values ----------

  /** One value shortened by as much of the excess as it can bear. */
  function Shorten(v: Value, excess: nat): Value {
    if v.Num? || excess == 0 then v
    else if |v.text| > excess then Str(v.text[..|v.text| - excess])
    else Str("")
  }

  /** The excess that is left to the values behind it. */
  function Remaining(v: Value, excess: nat): nat {
    if v.Num? then excess else if |v.text| > excess then 0 else excess - |v.text|
  }

  /** The values after taking `excess` characters away, from the left. */
  function Cut(values: seq<Value>, excess: nat): (r: seq<Value>)
    ensures |r| == |values|
  {
    if values == [] then [] else [Shorten(values[0], excess)] + Cut(values[1..], Remaining(values[0], excess))
  }

  lemma {:induction false} CutNothing(values: seq<Value>)
    ensures Cut(values, 0) == values
  {
    if values != [] { CutNothing(values[1..]); }
  }

  /** What is taken away plus what is left over is what was asked for; numbers are not touched. */
  lemma {:induction false} CutConserves(values: seq<Value>, excess: nat)
    ensures StrLength(Cut(values, excess)) == if StrLength(values) >= excess then StrLength(values) - excess else 0
    ensures NumLength(Cut(values, excess)) == NumLength(values)
  {
    if values != [] {
      var cut := Cut(values, excess);
      CutConserves(values[1..], Remaining(values[0], excess));
      assert cut[1..] == Cut(values[1..], Remaining(values[0], excess));
    }
  }

  /** Each value is replaced by a prefix of itself, from the left: the strings before some point are
      emptied, and the values behind it are untouched. */
  predicate CutAt(values: seq<Value>, cut: seq<Value>, k: nat)
    requires |cut| == |values| && k <= |values|
  {
    && (forall i | 0 <= i < |values| :: values[i].Num? ==> cut[i] == values[i])
    && (forall i | 0 <= i < |values| :: values[i].Str? ==> cut[i].Str? && cut[i].text <= values[i].text)
    && (forall i | 0 <= i < |values| && i < k - 1 :: values[i].Str? ==> cut[i].text == "")
    && (forall i | k <= i < |values| :: cut[i] == values[i])
  }

  lemma CutAtCons(values: seq<Value>, cut: seq<Value>, k: nat)
    requires |cut| == |values| > 0 && k <= |values| - 1 && CutAt(values[1..], cut[1..], k)
    requires cut[0] == if values[0].Num? then values[0] else Str("")
    ensures CutAt(values, cut, k + 1)
  {
    forall i | 0 <= i < |values|
      ensures cut[i] == values[i] || (values[i].Str? && cut[i].Str? && cut[i].text <= values[i].text) {
      if i > 0 { assert values[1..][i - 1] == values[i] && cut[1..][i - 1] == cut[i]; }
    }
    forall i | 0 <= i < |values| && i < k && values[i].Str? ensures cut[i].text == "" {
      if i > 0 { assert values[1..][i - 1] == values[i] && cut[1..][i - 1] == cut[i]; }
    }
    forall i | k + 1 <= i < |values| ensures cut[i] == values[i] {
      assert values[1..][i - 1] == values[i] && cut[1..][i - 1] == cut[i];
    }
  }

  lemma {:induction false} CutGoesLeftToRight(values: seq<Value>, excess: nat) returns (k: nat)
    ensures k <= |values| && CutAt(values, Cut(values, excess), k)
  {
    k := 0;
    CutNothing(values);
    if values != [] && excess > 0 {
      var cut := Cut(values, excess);
      var rest := Remaining(values[0], excess);
      assert cut[1..] == Cut(values[1..], rest);
      if rest == 0 {
        CutNothing(values[1..]);
        forall i | 1 <= i < |values| ensures cut[i] == values[i] { assert cut[1..][i - 1] == values[1..][i - 1]; }
        k := 1;
      } else {
        k := CutGoesLeftToRight(values[1..], rest);
        CutAtCons(values, cut, k);
        k := k + 1;
      }
    }
  }

  // ---------- Truncate ----------

  function TrimEnd(s: string): string {
    if s != [] && !IsAlnum(s[|s| - 1]) then TrimEnd(s[..|s| - 1]) else s
  }

  function TrimStart(s: string): string {
    if s != [] && !IsAlnum(s[0]) then TrimStart(s[1..]) else s
  }

  function TrimNonAlphaNumeric(s: string): string { TrimStart(TrimEnd(s)) }

  lemma {:induction false} TrimmedStart(s: string) returns (i: nat)
    ensures i <= |s| && TrimStart(s) == s[i..]
    ensures (forall k | 0 <= k < i :: !IsAlnum(s[k])) && (i < |s| ==> IsAlnum(s[i]))
  {
    i := 0;
    assert s[0..] == s;
    if s != [] && !IsAlnum(s[0]) {
      var j := TrimmedStart(s[1..]);
      i := j + 1;
      forall k | 0 < k < i ensures !IsAlnum(s[k]) { assert s[1..][k - 1] == s[k]; }
    }
  }

  lemma {:induction false} TrimmedEnd(s: string) returns (j: nat)
    ensures j <= |s| && TrimEnd(s) == s[..j]
    ensures (forall k | j <= k < |s| :: !IsAlnum(s[k])) && (j > 0 ==> IsAlnum(s[j - 1]))
  {
    j := |s|;
    assert s[..j] == s;
    if s != [] && !IsAlnum(s[|s| - 1]) {
      var front := s[..|s| - 1];
      j := TrimmedEnd(front);
      assert front[..j] == s[..j] && forall k | j <= k < |front| :: front[k] == s[k];
    }
  }

  /** Trimming takes away exactly what stands before the first letter or digit and behind the last. */
  lemma TrimmedIs(s: string) returns (i: nat, j: nat)
    ensures i <= j <= |s| && TrimNonAlphaNumeric(s) == s[i..j]
    ensures forall k | 0 <= k < |s| && !(i <= k < j) :: !IsAlnum(s[k])
    ensures i < j ==> IsAlnum(s[i]) && IsAlnum(s[j - 1])
  {
    j := TrimmedEnd(s);
    i := TrimmedStart(s[..j]);
  }

  function Truncated(format: seq<Piece>, maxLen: nat, values: seq<Value>): string
    requires Holes(format) == |values|
  {
    var result := Sprintf(format, values);
    var cut := if |result| > maxLen then Sprintf(format, Cut(values, |result| - maxLen)) else result;
    if |cut| > maxLen then cut[..maxLen] else TrimNonAlphaNumeric(cut)
  }

  method TruncateText(format: seq<Piece>, maxLen: nat, values: seq<Value>) returns (r: string)
    requires Holes(format) == |values|
    ensures r == Truncated(format, maxLen, values)
  {
    hide Sprintf, Cut, TrimNonAlphaNumeric;
    var result := Sprintf(format, values);
    if |result| > maxLen {
      var truncated := CutValues(values, |result| - maxLen);
      result := Sprintf(format, truncated);
    }
    if |result| > maxLen { return result[..maxLen]; }
    return TrimNonAlphaNumeric(result);
  }

  /** The loop of the source. What it has taken away and what is still in excess add up to the same all along. */
  method CutValues(values: seq<Value>, excess: nat) returns (truncated: seq<Value>)
    ensures truncated == Cut(values, excess)
  {
    truncated := [];
    var left := excess;
    for i := 0 to |values|
      invariant |truncated| == i && left >= 0
      invariant StrLength(values[..i]) - StrLength(truncated) + left == excess
      invariant truncated + Cut(values[i..], left) == Cut(values, excess)
    {
      CutStep(values, i, left, truncated);
      var value := values[i];
      if left != 0 {
        if value.Str? {
          if |value.text| > left {
            value, left := Str(value.text[..|value.text| - left]), 0;
          } else {
            left := left - |value.text|;
            value := Str("");
          }
        }
      }
      truncated := truncated + [value];
    }
  }

  lemma CutStep(values: seq<Value>, i: nat, left: nat, truncated: seq<Value>)
    requires i < |values|
    ensures var v, rest := Shorten(values[i], left), Remaining(values[i], left);
      && truncated + Cut(values[i..], left) == truncated + [v] + Cut(values[i + 1..], rest)
      && StrLength(values[..i + 1]) - StrLength(truncated + [v]) + rest ==
        StrLength(values[..i]) - StrLength(truncated) + left
  {
    assert values[i..][1..] == values[i + 1..];
    assert values[..i + 1] == values[..i] + [values[i]];
    StrLengthSnoc(values[..i], values[i]);
    StrLengthSnoc(truncated, Shorten(values[i], left));
  }

  lemma {:induction false} StrLengthSnoc(values: seq<Value>, v: Value)
    ensures StrLength(values + [v]) == StrLength(values) + if v.Str? then |v.text| else 0
  {
    if values != [] {
      StrLengthSnoc(values[1..], v);
      assert (values + [v])[1..] == values[1..] + [v];
    } else {
      assert values + [v] == [v];
    }
  }

  // ---------- What truncation achieves ----------

  lemma {:induction false} TrimsWithin(s: string)
    ensures |TrimEnd(s)| <= |s| && |TrimStart(s)| <= |s|
    ensures TrimEnd(s) <= s && exists i | 0 <= i <= |s| :: TrimStart(s) == s[i..]
  {
    if s != [] {
      TrimsWithin(s[..|s| - 1]);
      TrimsWithin(s[1..]);
      if IsAlnum(s[0]) {
        assert s[0..] == s;
      } else {
        var i :| 0 <= i <= |s| - 1 && TrimStart(s[1..]) == s[1..][i..];
        assert s[1..][i..] == s[i + 1..];
      }
    } else {
      assert s[0..] == s;
    }
  }

  lemma TruncatedFits(format: seq<Piece>, maxLen: nat, values: seq<Value>)
    requires Holes(format) == |values|
    ensures |Truncated(format, maxLen, values)| <= maxLen
  {
    var result := Sprintf(format, values);
    var cut := if |result| > maxLen then Sprintf(format, Cut(values, |result| - maxLen)) else result;
    TrimsWithin(cut);
    TrimsWithin(TrimEnd(cut));
  }

  lemma CutLength(format: seq<Piece>, maxLen: nat, values: seq<Value>)
    requires Holes(format) == |values| && |Sprintf(format, values)| > maxLen
    ensures |Sprintf(format, Cut(values, |Sprintf(format, values)| - maxLen))|
      == if FixedLength(format, values) <= maxLen then maxLen else FixedLength(format, values)
  {
    var excess := |Sprintf(format, values)| - maxLen;
    var cut := Cut(values, excess);
    SprintfLength(format, values);
    SprintfLength(format, cut);
    CutConserves(values, excess);
    assert FixedLength(format, cut) == FixedLength(format, values);
  }

  /** An over-long text is cut to exactly the limit before trimming if what cannot be shortened fits;
      if it does not, every string is emptied and the rest cut off hard, without trimming. */
  lemma TruncatedExactly(format: seq<Piece>, maxLen: nat, values: seq<Value>)
    requires Holes(format) == |values| && |Sprintf(format, values)| > maxLen
    ensures var cut := Sprintf(format, Cut(values, |Sprintf(format, values)| - maxLen));
      if FixedLength(format, values) <= maxLen
      then |cut| == maxLen && Truncated(format, maxLen, values) == TrimNonAlphaNumeric(cut)
      else |cut| == FixedLength(format, values) && Truncated(format, maxLen, values) == cut[..maxLen]
  {
    CutLength(format, maxLen, values);
  }

  // ---------- DNSName ----------

  function DnsChar(c: char, edge: bool): char {
    if IsLower(ToLower(c)) then ToLower(c) else if edge then 'a' else '-'
  }

  function DnsName(name: string): (r: string)
    ensures |r| == |name|
  {
    seq(|name|, i requires 0 <= i < |name| => DnsChar(name[i], i == 0 || i == |name| - 1))
  }

  /** Letters in lower case and digits stay; anything else is an a at either end and a hyphen between. */
  lemma DnsNameAt(name: string, i: nat)
    requires i < |name|
    ensures DnsName(name)[i] ==
      if IsAlnum(name[i]) then ToLower(name[i])
      else if i == 0 || i == |name| - 1 then 'a' else '-'
  {
  }

  method DNSName(name: string) returns (d: string)
    ensures d == DnsName(name)
  {
    d := [];
    for i := 0 to |name|
      invariant d == DnsName(name)[..i]
    {
      var x := ToLower(name[i]);
      if IsLower(x) {
        d := d + [x];
      } else if i == 0 || i == |name| - 1 {
        d := d + ['a'];
      } else {
        d := d + ['-'];
      }
    }
  }

  /** Any text that is neither empty nor too long becomes a label, and a label stays as it is. */
  lemma DnsNameIsLabel(name: string)
    ensures IsLabel(DnsName(name)) <==> 0 < |name| <= 63
    ensures IsLabel(name) ==> DnsName(name) == name
  {
  }
}
