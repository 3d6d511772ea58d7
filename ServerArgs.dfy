/**
 * The command-line loop run before the proxy starts: `-p`/`--port` takes the
 * next argument as the port when `parseInt` reads a number from it, and
 * `-h`/`-?`/`--help` prints the usage and exits. Other arguments are ignored.
 */
module ServerArgs {
  import opened Wrappers
  import Text

  datatype Startup = Listen(port: int) | ShowUsage

  /** The value of `c` as a digit in base `radix` (10 or 16), or -1. */
  function DigitValue(c: char, radix: nat): (d: int)
    ensures -1 <= d < 16
  {
    if '0' <= c <= '9' && (c as int - '0' as int) < radix then c as int - '0' as int
    else if radix == 16 && 'a' <= c <= 'f' then c as int - 'a' as int + 10
    else if radix == 16 && 'A' <= c <= 'F' then c as int - 'A' as int + 10
    else -1
  }

  /** Length of the longest prefix of `s` made of digits. */
  function DigitRun(s: string, radix: nat): (n: nat)
    ensures n <= |s|
    ensures forall k | 0 <= k < n :: DigitValue(s[k], radix) >= 0
    ensures n < |s| ==> DigitValue(s[n], radix) < 0
  {
    if |s| > 0 && DigitValue(s[0], radix) >= 0 then 1 + DigitRun(s[1..], radix) else 0
  }

  /** The number written by a run of digits, most significant first. */
  function DigitsValue(digits: string, radix: nat): (v: nat)
    requires forall k | 0 <= k < |digits| :: DigitValue(digits[k], radix) >= 0
  {
    if |digits| == 0 then 0
    else
      var high := DigitsValue(digits[..|digits| - 1], radix);
      var low := DigitValue(digits[|digits| - 1], radix);
      assert 0 <= high * radix by {
        var a: nat, b: nat := high, radix;
        assert 0 <= a * b;
      }
      high * radix + low
  }

  /** The digits after the sign: base 16 behind a `0x`/`0X` prefix, base 10 otherwise. */
  function ParseUnsigned(u: string): Option<nat> {
    if |u| >= 2 && u[0] == '0' && (u[1] == 'x' || u[1] == 'X') then ParseDigits(u[2..], 16)
    else ParseDigits(u, 10)
  }

  /** The longest run of digits in base `radix` at the front of `s`, or `None` when there is none. */
  function ParseDigits(s: string, radix: nat): Option<nat> {
    var n := DigitRun(s, radix);
    if n == 0 then None else Some(DigitsValue(s[..n], radix))
  }

  /**
   * `parseInt(s)` with no radix: leading white space skipped, an optional
   * sign, then the longest run of digits; `None` stands for `NaN` (no digit
   * at all).
   */
  function ParseInt(s: string): Option<int> {
    ParseSigned(Text.TrimStart(s))
  }

  /** An optional sign, then the digits. */
  function ParseSigned(t: string): Option<int> {
    if |t| > 0 && (t[0] == '-' || t[0] == '+') then
      var v := ParseUnsigned(t[1..]);
      if v.None? then None else Some(if t[0] == '-' then 0 - v.value else v.value)
    else
      var v := ParseUnsigned(t);
      if v.None? then None else Some(v.value)
  }

  /** What the loop computes from position `i` on, with `port` the value so far. */
  function ArgsFrom(argv: seq<string>, i: nat, port: int): Startup
    decreases |argv| - i
  {
    if i >= |argv| then Listen(port)
    else if argv[i] == "-p" || argv[i] == "--port" then
      var p := if i + 1 < |argv| then ParseInt(argv[i + 1]) else None;
      ArgsFrom(argv, i + 2, if p.Some? then p.value else port)
    else if argv[i] == "-h" || argv[i] == "-?" || argv[i] == "--help" then ShowUsage
    else ArgsFrom(argv, i + 1, port)
  }

  /** `process.argv`: the first two entries are the runtime and the script. */
  method ParseArgs(argv: seq<string>, port0: int) returns (r: Startup)
    ensures r == ArgsFrom(argv, 2, port0)
  {
    var port := port0;
    if |argv| > 2 {
      var i := 2;
      while i < |argv|
        invariant i >= 2
        invariant ArgsFrom(argv, i, port) == ArgsFrom(argv, 2, port0)
      {
        var opt := argv[i];
        if opt == "-p" || opt == "--port" {
          i := i + 1;
          var p := if i < |argv| then ParseInt(argv[i]) else None;
          if p.Some? {
            port := p.value;
          }
        } else if opt == "-h" || opt == "-?" || opt == "--help" {
          return ShowUsage;
        }
        i := i + 1;
      }
    }
    return Listen(port);
  }

  /** The run of digits ends where a character that is not a digit follows. */
  lemma {:induction false} DigitRunOf(d: string, t: string, radix: nat)
    requires forall k | 0 <= k < |d| :: DigitValue(d[k], radix) >= 0
    requires t == [] || DigitValue(t[0], radix) < 0
    ensures DigitRun(d + t, radix) == |d|
    decreases |d|
  {
    if d == [] {
      assert d + t == t;
    } else {
      assert (d + t)[1..] == d[1..] + t;
      DigitRunOf(d[1..], t, radix);
    }
  }

  /** The digits `d` read in base `radix` from the front of `d + t`. */
  lemma DigitsRead(d: string, t: string, radix: nat)
    requires d != [] && forall k | 0 <= k < |d| :: DigitValue(d[k], radix) >= 0
    requires t == [] || DigitValue(t[0], radix) < 0
    ensures DigitRun(d + t, radix) == |d| && (d + t)[..|d|] == d
  {
    DigitRunOf(d, t, radix);
  }

  /** A decimal run, not behind `0x`, read by the unsigned step. */
  lemma UnsignedDecimal(d: string, t: string)
    requires d != [] && forall k | 0 <= k < |d| :: '0' <= d[k] <= '9'
    requires t == [] || !('0' <= t[0] <= '9')
    requires !(d == "0" && t != [] && (t[0] == 'x' || t[0] == 'X'))
    ensures ParseUnsigned(d + t) == Some(DigitsValue(d, 10))
  {
    var u := d + t;
    assert !(|u| >= 2 && u[0] == '0' && (u[1] == 'x' || u[1] == 'X')) by {
      if |d| >= 2 {
        assert u[1] == d[1];
      } else if |u| >= 2 {
        assert u[0] == d[0] && u[1] == t[0];
      }
    }
    DigitsRead(d, t, 10);
  }

  /** A hexadecimal run behind `0x`, read by the unsigned step. */
  lemma UnsignedHex(x: char, h: string, t: string)
    requires x == 'x' || x == 'X'
    requires forall k | 0 <= k < |h| :: DigitValue(h[k], 16) >= 0
    requires t == [] || DigitValue(t[0], 16) < 0
    ensures ParseUnsigned(['0', x] + h + t) == if h == [] then None else Some(DigitsValue(h, 16))
  {
    var u := ['0', x] + h + t;
    assert u[2..] == h + t;
    DigitRunOf(h, t, 16);
    if h != [] {
      DigitsRead(h, t, 16);
    }
  }

  /** A sign in front of the digits negates or keeps their value. */
  lemma Signed(c: char, u: string, v: nat)
    requires c == '+' || c == '-'
    requires ParseUnsigned(u) == Some(v)
    ensures ParseInt([c] + u) == Some(if c == '-' then -(v as int) else v)
  {
    var t := [c] + u;
    assert t[0] == c && t[1..] == u;
    NoLeadingSpace(t);
  }

  /** Digits read as `v`, with no sign or white space of their own: the three ways `parseInt` sees them. */
  lemma SignsOf(u: string, v: nat)
    requires u != [] && !Text.IsSpace(u[0]) && u[0] != '-' && u[0] != '+'
    requires ParseUnsigned(u) == Some(v)
    ensures ParseInt(u) == Some(v)
    ensures ParseInt("+" + u) == Some(v)
    ensures ParseInt("-" + u) == Some(-(v as int))
  {
    NoLeadingSpace(u);
    Unsigned(u);
    assert "+" + u == ['+'] + u && "-" + u == ['-'] + u;
    Signed('+', u, v);
    Signed('-', u, v);
  }

  /**
   * Decimal `parseInt` on every input of its shape: a run of decimal digits,
   * with or without a sign, followed by text that does not continue the run,
   * is the value of the run. A lone `0` followed by `x` is the hexadecimal
   * case below.
   */
  lemma ParseIntDecimalRun(d: string, t: string)
    requires d != [] && forall k | 0 <= k < |d| :: '0' <= d[k] <= '9'
    requires t == [] || !('0' <= t[0] <= '9')
    requires !(d == "0" && t != [] && (t[0] == 'x' || t[0] == 'X'))
    ensures ParseInt(d + t) == Some(DigitsValue(d, 10))
    ensures ParseInt("+" + (d + t)) == Some(DigitsValue(d, 10))
    ensures ParseInt("-" + (d + t)).Some? && ParseInt("-" + (d + t)).value + DigitsValue(d, 10) == 0
  {
    var u, v := d + t, DigitsValue(d, 10);
    assert ParseUnsigned(u) == Some(v) by { UnsignedDecimal(d, t); }
    assert u[0] == d[0];
    SignsOf(u, v);
  }

  /**
   * Hexadecimal `parseInt` on every input of its shape: `0x` or `0X`, then a
   * run of hexadecimal digits followed by text that does not continue it, is
   * the value of the run; with no digit at all it is `NaN`.
   */
  lemma ParseIntHexRun(x: char, h: string, t: string)
    requires x == 'x' || x == 'X'
    requires forall k | 0 <= k < |h| :: DigitValue(h[k], 16) >= 0
    requires t == [] || DigitValue(t[0], 16) < 0
    ensures ParseInt(['0', x] + h + t) == if h == [] then None else Some(DigitsValue(h, 16))
  {
    var u := ['0', x] + h + t;
    assert ParseUnsigned(u) == if h == [] then None else Some(DigitsValue(h, 16)) by { UnsignedHex(x, h, t); }
    assert ParseInt(u) == ParseUnsigned(u) by {
      assert u[0] == '0';
      NoLeadingSpace(u);
      Unsigned(u);
    }
  }

  /** Without leading white space, `parseInt` reads the sign and the digits right away. */
  lemma NoLeadingSpace(t: string)
    requires t == [] || !Text.IsSpace(t[0])
    ensures ParseInt(t) == ParseSigned(t)
  {
    Text.TrimStartStops(t);
  }

  /** Leading white space is skipped. */
  lemma LeadingSpaceSkipped(c: char, s: string)
    requires Text.IsSpace(c)
    ensures ParseInt([c] + s) == ParseInt(s)
  {
    Text.TrimStartSkips(c, s);
  }

  /** Without a sign, the digits are the whole number. */
  lemma Unsigned(t: string)
    requires t != [] && t[0] != '-' && t[0] != '+'
    ensures ParseSigned(t) == ParseUnsigned(t)
  {
  }

  lemma DecimalDigits()
    ensures DigitRun("8090", 10) == 4 && DigitsValue("8090", 10) == 8090
  {
    assert "8090"[1..] == "090" && "090"[1..] == "90" && "90"[1..] == "0" && "0"[1..] == "";
    assert "8090"[..3] == "809" && "809"[..2] == "80" && "80"[..1] == "8" && "8"[..0] == "";
  }

  /** A decimal port, as typed. */
  lemma ParseIntDecimal()
    ensures ParseInt("8090") == Some(8090)
  {
    DecimalDigits();
    assert "8090"[..4] == "8090";
    assert ParseUnsigned("8090") == Some(8090);
    NoLeadingSpace("8090");
    Unsigned("8090");
  }

  lemma DigitsBeforeText()
    ensures ParseUnsigned("80abc") == Some(80)
  {
    RunBeforeText();
    assert "80abc"[..2] == "80";
    assert "80"[..1] == "8" && "8"[..0] == "";
  }

  lemma RunBeforeText()
    ensures DigitRun("80abc", 10) == 2
  {
    assert "80abc"[1..] == "0abc" && "0abc"[1..] == "abc";
    assert DigitValue('a', 10) < 0;
  }

  /** Text after the digits is ignored. */
  lemma ParseIntStopsAtText()
    ensures ParseInt("80abc") == Some(80)
  {
    DigitsBeforeText();
    NoLeadingSpace("80abc");
    Unsigned("80abc");
  }

  lemma HexDigits()
    ensures DigitRun("1F", 16) == 2 && DigitsValue("1F", 16) == 31
  {
    assert "1F"[1..] == "F" && "F"[1..] == "";
    assert "1F"[..1] == "1" && "1"[..0] == "";
  }

  /** A `0x` prefix switches to base 16. */
  lemma ParseIntHex()
    ensures ParseInt("0x1F") == Some(31)
  {
    HexDigits();
    assert "0x1F"[2..] == "1F" && "1F"[..2] == "1F";
    assert ParseUnsigned("0x1F") == Some(31);
    NoLeadingSpace("0x1F");
    Unsigned("0x1F");
  }

  /** Text with no leading digit is `NaN`. */
  lemma ParseIntNaN()
    ensures ParseInt("port") == None
  {
    assert ParseUnsigned("port") == None;
    NoLeadingSpace("port");
    Unsigned("port");
  }

  /** Without a port flag the port is the one given, unless help is asked for. */
  lemma {:induction false} NoPortFlagKeepsPort(argv: seq<string>, i: nat, port: int)
    requires forall k | i <= k < |argv| :: argv[k] != "-p" && argv[k] != "--port"
    ensures ArgsFrom(argv, i, port) == Listen(port) || ArgsFrom(argv, i, port) == ShowUsage
    decreases |argv| - i
  {
    if i < |argv| && !(argv[i] == "-h" || argv[i] == "-?" || argv[i] == "--help") {
      NoPortFlagKeepsPort(argv, i + 1, port);
    }
  }

  lemma FlagIsNaN()
    ensures ParseInt("-h") == None
  {
    assert "-h"[1..] == "h";
    assert ParseUnsigned("h") == None;
    NoLeadingSpace("-h");
  }

  /** The port flag takes the next argument even when it is the help flag, which is then neither obeyed nor used as the port. */
  lemma PortFlagSwallowsHelp(argv: seq<string>, i: nat, port: int)
    requires i + 1 < |argv| && argv[i] == "-p" && argv[i + 1] == "-h"
    ensures ArgsFrom(argv, i, port) == ArgsFrom(argv, i + 2, port)
  {
    FlagIsNaN();
  }
}
