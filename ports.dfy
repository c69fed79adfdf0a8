/** The parsing half of `getListeningPorts` (backend/services/QuotaService.js) and
    `get_listening_ports` (check_quota.py): the PowerShell output, one port per
    line, becomes the sorted list of distinct ports in 1..65535. Running the
    command is not modelled; the functions receive its output split into lines. */
module Ports {
  import opened Wrappers
  import opened Numerals

  const MaxPort: int := 65535

  /** ASCII whitespace, which both `trim()` and `strip()` remove. */
  predicate IsSpace(c: char) {
    c == ' ' || c == '\t' || c == '\n' || c == '\r' || c == 11 as char || c == 12 as char
  }

  function TrimStart(s: string): (r: string)
    ensures |r| <= |s| && r == s[|s| - |r|..]
    ensures r != [] ==> !IsSpace(r[0])
  {
    if s != [] && IsSpace(s[0]) then TrimStart(s[1..]) else s
  }

  function TrimEnd(s: string): (r: string)
    ensures |r| <= |s| && r == s[..|r|]
    ensures r != [] ==> !IsSpace(r[|r| - 1])
  {
    if s != [] && IsSpace(s[|s| - 1]) then TrimEnd(s[..|s| - 1]) else s
  }

  /** `line.trim()` / `line.strip()`. */
  function Trim(s: string): string {
    TrimEnd(TrimStart(s))
  }

  predicate IsHexDigit(c: char) {
    IsDigit(c) || 'a' <= c <= 'f' || 'A' <= c <= 'F'
  }

  function HexDigitValue(c: char): nat
    requires IsHexDigit(c)
  {
    if IsDigit(c) then DigitValue(c)
    else if 'a' <= c <= 'f' then c as int - 'a' as int + 10
    else c as int - 'A' as int + 10
  }

  /** The number of leading hexadecimal digits of `s`. */
  function HexSpan(s: string): (k: nat)
    ensures k <= |s|
    ensures forall i :: 0 <= i < k ==> IsHexDigit(s[i])
  {
    if s == [] || !IsHexDigit(s[0]) then 0 else 1 + HexSpan(s[1..])
  }

  function HexValue(s: string): nat
    requires forall i :: 0 <= i < |s| ==> IsHexDigit(s[i])
  {
    if s == [] then 0 else HexValue(s[..|s| - 1]) * 16 + HexDigitValue(s[|s| - 1])
  }

  /** JavaScript `parseInt(s)` without a radix on a string with no leading
      whitespace: an optional sign, then either `0x`/`0X` and hexadecimal digits
      or decimal digits, read as far as they go. `None` is `NaN`. */
  function ParseInt(s: string): Option<int> {
    var negative := s != [] && s[0] == '-';
    var body := if s != [] && (s[0] == '+' || s[0] == '-') then s[1..] else s;
    var magnitude: Option<int> :=
      if |body| >= 2 && body[0] == '0' && (body[1] == 'x' || body[1] == 'X') then
        var k := HexSpan(body[2..]);
        if k == 0 then None else Some(HexValue(body[2..][..k]))
      else
        var k := DigitSpan(body);
        if k == 0 then None else Some(DigitsValue(body[..k]));
    if magnitude.None? then None
    else if negative then Some(-magnitude.value) else Some(magnitude.value)
  }

  /** The port a line of output contributes in JavaScript: `parseInt` of the
      trimmed line when it lies in 1..65535 (`NaN` fails both comparisons). */
  function JsLinePort(line: string): Option<int> {
    InPortRange(ParseInt(Trim(line)))
  }

  /** A parsed value kept only when it lies in 1..65535. */
  function InPortRange(p: Option<int>): Option<int> {
    if p.Some? && 0 < p.value <= MaxPort then p else None
  }

  /** The port a line of output contributes in Python: the stripped line must be
      all digits (`isdigit`), and its value must lie in 1..65535. */
  function PyLinePort(line: string): Option<int> {
    DigitsPort(Trim(line))
  }

  /** The port a stripped line of digits names, when it lies in 1..65535. */
  function DigitsPort(t: string): Option<int> {
    if t != [] && AllDigits(t) && 0 < DigitsValue(t) <= MaxPort then Some(DigitsValue(t)) else None
  }

  predicate StrictlyAscending(s: seq<int>) {
    forall i, j :: 0 <= i < j < |s| ==> s[i] < s[j]
  }

  /** Adds `x` to a strictly ascending list, keeping it strictly ascending. */
  function Insert(s: seq<int>, x: int): (r: seq<int>)
    requires StrictlyAscending(s)
    ensures StrictlyAscending(r)
    ensures forall y :: y in r <==> y in s || y == x
  {
    if s == [] then [x]
    else if x < s[0] then [x] + s
    else if x == s[0] then s
    else
      var rest := Insert(s[1..], x);
      forall j | 0 <= j < |rest|
        ensures s[0] < rest[j]
      {
        assert rest[j] in rest;
        if rest[j] != x {
          var k :| 0 <= k < |s[1..]| && s[1..][k] == rest[j];
          assert s[1..][k] == s[k + 1];
        }
      }
      [s[0]] + rest
  }

  /** `[...new Set(ports)].sort((a, b) => a - b)` / `sorted(set(ports))`: the
      distinct values in ascending order. */
  function SortedUnique(xs: seq<int>): (r: seq<int>)
    ensures StrictlyAscending(r)
    ensures forall y :: y in r <==> y in xs
  {
    if xs == [] then []
    else Insert(SortedUnique(xs[..|xs| - 1]), xs[|xs| - 1])
  }

  /** The ports the loop over `lines` pushes, in order, when `linePort` says
      what each line contributes. */
  function Found(lines: seq<string>, linePort: string -> Option<int>): seq<int> {
    if lines == [] then []
    else
      var c := linePort(lines[|lines| - 1]);
      Found(lines[..|lines| - 1], linePort) + (if c.Some? then [c.value] else [])
  }

  /** One more line pushes its port, if any, after the others. */
  lemma FoundStep(lines: seq<string>, i: nat, linePort: string -> Option<int>)
    requires i < |lines|
    ensures var c := linePort(lines[i]);
            Found(lines[..i + 1], linePort) == Found(lines[..i], linePort) + (if c.Some? then [c.value] else [])
  {
    assert lines[..i + 1][..i] == lines[..i];
  }

  /** A port is pushed exactly when some line contributes it. */
  lemma {:induction false} FoundMembers(lines: seq<string>, linePort: string -> Option<int>)
    ensures forall p :: p in Found(lines, linePort) <==> exists j :: 0 <= j < |lines| && linePort(lines[j]) == Some(p)
  {
    if lines != [] {
      var last := |lines| - 1;
      var init := lines[..last];
      var c := linePort(lines[last]);
      var tail := if c.Some? then [c.value] else [];
      assert Found(lines, linePort) == Found(init, linePort) + tail;
      FoundMembers(init, linePort);
      forall p | p in Found(lines, linePort)
        ensures exists j :: 0 <= j < |lines| && linePort(lines[j]) == Some(p)
      {
        if p in Found(init, linePort) {
          var j :| 0 <= j < |init| && linePort(init[j]) == Some(p);
          assert init[j] == lines[j];
        } else {
          assert p in tail;
          assert linePort(lines[last]) == Some(p);
        }
      }
      forall p, j | 0 <= j < |lines| && linePort(lines[j]) == Some(p)
        ensures p in Found(lines, linePort)
      {
        if j < last {
          assert init[j] == lines[j];
          assert p in Found(init, linePort);
        } else {
          assert p in tail;
        }
      }
    }
  }

  /** The sorted, deduplicated pushed ports are exactly the ports some line
      contributes; when every contribution lies in 1..65535, so do they. */
  lemma PortsOfFound(lines: seq<string>, linePort: string -> Option<int>, ports: seq<int>)
    requires forall y :: y in ports <==> y in Found(lines, linePort)
    requires forall j :: 0 <= j < |lines| && linePort(lines[j]).Some? ==> 0 < linePort(lines[j]).value <= MaxPort
    ensures forall p :: p in ports ==> 0 < p <= MaxPort
    ensures forall p :: p in ports <==> exists i :: 0 <= i < |lines| && linePort(lines[i]) == Some(p)
  {
    FoundMembers(lines, linePort);
  }

  /** Every port a line contributes, in either language, lies in 1..65535. */
  lemma LinePortsInRange(lines: seq<string>)
    ensures forall j :: 0 <= j < |lines| && JsLinePort(lines[j]).Some? ==> 0 < JsLinePort(lines[j]).value <= MaxPort
    ensures forall j :: 0 <= j < |lines| && PyLinePort(lines[j]).Some? ==> 0 < PyLinePort(lines[j]).value <= MaxPort
  {
  }

  /** The JavaScript loop: every accepted line's port, then dedup and sort. The
      result is strictly ascending, within 1..65535, and holds exactly the ports
      some line contributes. */
  method ListeningPortsJs(lines: seq<string>) returns (ports: seq<int>)
    ensures StrictlyAscending(ports)
    ensures forall p :: p in ports ==> 0 < p <= MaxPort
    ensures forall p :: p in ports <==> exists i :: 0 <= i < |lines| && JsLinePort(lines[i]) == Some(p)
  {
    var found: seq<int> := [];
    for i := 0 to |lines|
      invariant found == Found(lines[..i], JsLinePort)
    {
      var p := ParseInt(Trim(lines[i]));
      FoundStep(lines, i, JsLinePort);
      assert JsLinePort(lines[i]) == InPortRange(p) by {
        assert p == ParseInt(Trim(lines[i]));
      }
      if p.Some? && 0 < p.value <= MaxPort {
        found := found + [p.value];
      }
    }
    assert lines[..|lines|] == lines;
    ports := SortedUnique(found);
    LinePortsInRange(lines);
    PortsOfFound(lines, JsLinePort, ports);
  }

  /** The Python loop, with the same guarantees over `isdigit` lines. */
  method ListeningPortsPy(lines: seq<string>) returns (ports: seq<int>)
    ensures StrictlyAscending(ports)
    ensures forall p :: p in ports ==> 0 < p <= MaxPort
    ensures forall p :: p in ports <==> exists i :: 0 <= i < |lines| && PyLinePort(lines[i]) == Some(p)
  {
    var found: seq<int> := [];
    for i := 0 to |lines|
      invariant found == Found(lines[..i], PyLinePort)
    {
      var line := Trim(lines[i]);
      FoundStep(lines, i, PyLinePort);
      assert PyLinePort(lines[i]) == DigitsPort(line);
      if line != [] && AllDigits(line) {
        var p := DigitsValue(line);
        if 0 < p <= MaxPort {
          found := found + [p];
        }
      }
    }
    assert lines[..|lines|] == lines;
    ports := SortedUnique(found);
    LinePortsInRange(lines);
    PortsOfFound(lines, PyLinePort, ports);
  }

  /** On a line of plain digits `parseInt` reads the whole line. */
  lemma ParseIntOfDigits(t: string)
    requires t != [] && AllDigits(t)
    ensures ParseInt(t) == Some(DigitsValue(t))
  {
    DigitSpanOfDigits(t, []);
    assert t + [] == t;
    assert t[..|t|] == t;
  }

  /** Every port Python accepts, JavaScript accepts too. */
  lemma PythonAcceptsLessThanJs(line: string)
    ensures PyLinePort(line).Some? ==> JsLinePort(line) == PyLinePort(line)
  {
    var t := Trim(line);
    if PyLinePort(line).Some? {
      ParseIntOfDigits(t);
    }
  }

  /** A line without whitespace at either end is its own trim. */
  lemma TrimUnspaced(s: string)
    requires s != [] && !IsSpace(s[0]) && !IsSpace(s[|s| - 1])
    ensures Trim(s) == s
  {
  }

  lemma ParseIntOfLeadingDigits(digits: string, rest: string)
    requires digits != [] && AllDigits(digits)
    requires rest != [] && !IsDigit(rest[0]) && rest[0] != 'x' && rest[0] != 'X'
    ensures ParseInt(digits + rest) == Some(DigitsValue(digits))
  {
    var s := digits + rest;
    DigitSpanOfDigits(digits, rest);
    assert s[..|digits|] == digits;
    assert |s| >= 2 ==> s[1] == if |digits| >= 2 then digits[1] else rest[0];
  }

  /** The converse fails: `parseInt` reads the number at the start of a line such
      as `"8080/tcp"`, which `isdigit` rejects. */
  lemma JsAcceptsLeadingNumber(digits: string, rest: string)
    requires digits != [] && AllDigits(digits) && 0 < DigitsValue(digits) <= MaxPort
    requires rest != [] && !IsDigit(rest[0]) && rest[0] != 'x' && rest[0] != 'X'
    requires !IsSpace(rest[|rest| - 1])
    ensures JsLinePort(digits + rest) == Some(DigitsValue(digits))
    ensures PyLinePort(digits + rest) == None
  {
    var s := digits + rest;
    TrimUnspaced(s);
    ParseIntOfLeadingDigits(digits, rest);
    assert s[|digits|] == rest[0];
  }
}
