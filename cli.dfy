/** The `build` command of the `dressed-forwarder` executable
    (src/bin/dressed-forwarder.ts): option values, the config it passes to `build`,
    the generated entry module's text and the success message. */
module Cli {
  import opened Wrappers
  import opened JsStrings
  import opened Config
  import Build

  // ---------------------------------------------------------------------------
  // Number.parseInt(v, 10)

  predicate IsDigit(c: char) {
    '0' <= c <= '9'
  }

  predicate AllDigits(s: string) {
    forall i :: 0 <= i < |s| ==> IsDigit(s[i])
  }

  /** The longest prefix of `s` made of decimal digits. */
  function LeadingDigits(s: string): (r: string)
    ensures |r| <= |s| && r == s[..|r|] && AllDigits(r)
    ensures |r| == |s| || !IsDigit(s[|r|])
  {
    if s != [] && IsDigit(s[0]) then [s[0]] + LeadingDigits(s[1..]) else ""
  }

  function DigitsValue(ds: string): nat
    requires AllDigits(ds)
  {
    if ds == [] then 0 else DigitsValue(ds[..|ds| - 1]) * 10 + (ds[|ds| - 1] as int - '0' as int)
  }

  /** The decimal rendering of `n`, without leading zeros. */
  function Decimal(n: nat): (r: string)
    ensures |r| >= 1 && AllDigits(r)
    ensures DigitsValue(r) == n
  {
    var last := ['0' + (n % 10) as char];
    if n < 10 then last
    else
      var r := Decimal(n / 10) + last;
      assert r[..|r| - 1] == Decimal(n / 10);
      r
  }

  /** A JavaScript number produced by `parseInt`. */
  datatype NumberValue = NaN | Int(value: int)

  /** `Number.parseInt(v, 10)`: skip leading whitespace, take an optional sign, then the
      longest run of digits; no digits gives NaN. The value is exact here; a double
      would round runs beyond 2^53, which does not change any comparison with 65535. */
  function ParseInt10(v: string): (r: NumberValue)
    ensures r.NaN? <==> LeadingDigits(Unsigned(TrimStart(v))) == ""
  {
    var t := TrimStart(v);
    var digits := LeadingDigits(Unsigned(t));
    if digits == "" then NaN
    else if t[0] == '-' then Int(-(DigitsValue(digits) as int))
    else Int(DigitsValue(digits))
  }

  /** The text after an optional leading sign. */
  function Unsigned(t: string): string {
    if t != [] && (t[0] == '-' || t[0] == '+') then t[1..] else t
  }

  lemma {:induction false} LeadingDigitsOfNumber(ds: string, suffix: string)
    requires AllDigits(ds)
    requires suffix == [] || !IsDigit(suffix[0])
    ensures LeadingDigits(ds + suffix) == ds
  {
    if ds != [] {
      assert (ds + suffix)[1..] == ds[1..] + suffix;
      LeadingDigitsOfNumber(ds[1..], suffix);
    } else {
      assert ds + suffix == suffix;
    }
  }

  /** `parseInt` reads back a decimal rendering, whatever whitespace precedes it and
      whatever non-digit text follows it. */
  lemma ParseDecimal(lead: string, n: nat, suffix: string)
    requires AllWhitespace(lead)
    requires suffix == [] || !IsDigit(suffix[0])
    ensures ParseInt10(lead + Decimal(n) + suffix) == Int(n)
  {
    ParseDigits(lead, Decimal(n), suffix);
  }

  lemma ParseDigits(lead: string, d: string, suffix: string)
    requires AllWhitespace(lead)
    requires d != "" && AllDigits(d)
    requires suffix == [] || !IsDigit(suffix[0])
    ensures ParseInt10(lead + d + suffix) == Int(DigitsValue(d))
  {
    SkipToDigits(lead, d, suffix);
    LeadingDigitsOfNumber(d, suffix);
    ParseUnsigned(lead + d + suffix, d + suffix, d);
  }

  /** Whitespace before a run of digits is all that `TrimStart` removes. */
  lemma SkipToDigits(lead: string, d: string, suffix: string)
    requires AllWhitespace(lead)
    requires d != "" && AllDigits(d)
    ensures TrimStart(lead + d + suffix) == d + suffix
    ensures (d + suffix)[0] == d[0]
  {
    var t := d + suffix;
    ConcatAssoc(lead, d, suffix);
    assert t[0] == d[0] && IsDigit(t[0]);
    TrimStartAfterWhitespace(lead, t);
  }

  /** Once whitespace is skipped, a run of digits with no sign reads as its value. */
  lemma ParseUnsigned(v: string, t: string, d: string)
    requires d != "" && AllDigits(d)
    requires TrimStart(v) == t && t != [] && IsDigit(t[0])
    requires LeadingDigits(Unsigned(t)) == d
    ensures ParseInt10(v) == Int(DigitsValue(d))
  {
  }

  /** A leading minus sign negates the value read. */
  lemma ParseNegativeDecimal(n: nat)
    ensures ParseInt10("-" + Decimal(n)) == Int(-(n as int))
  {
    ParseNegativeDigits(Decimal(n));
  }

  lemma ParseNegativeDigits(d: string)
    requires d != "" && AllDigits(d)
    ensures ParseInt10("-" + d) == Int(-(DigitsValue(d) as int))
  {
    SignNotTrimmed(d);
    LeadingDigitsOfDigits(d);
    ParseNegative("-" + d, d);
  }

  lemma SignNotTrimmed(d: string)
    ensures TrimStart("-" + d) == "-" + d
    ensures Unsigned("-" + d) == d
  {
    var s := "-" + d;
    assert "" + s == s;
    TrimStartAfterWhitespace("", s);
  }

  lemma {:induction false} LeadingDigitsOfDigits(d: string)
    requires AllDigits(d)
    ensures LeadingDigits(d) == d
  {
    LeadingDigitsOfNumber(d, "");
    assert d + "" == d;
  }

  lemma ParseNegative(v: string, d: string)
    requires d != "" && AllDigits(d)
    requires TrimStart(v) == v && v != [] && v[0] == '-'
    requires LeadingDigits(Unsigned(v)) == d
    ensures ParseInt10(v) == Int(-(DigitsValue(d) as int))
  {
  }

  // ---------------------------------------------------------------------------
  // The --port argument parser

  const PortError := "Port must be a valid TCP/IP network port number (0-65535)"

  /** The `--port` argument parser: the parsed integer when it is a number in
      0..65535, otherwise an `InvalidArgumentError` with the port message. */
  function ValidatePort(v: string): (r: Result<int, string>)
    ensures r.Success? <==> ParseInt10(v).Int? && 0 <= ParseInt10(v).value <= 65535
    ensures r.Success? ==> ParseInt10(v) == Int(r.value)
    ensures r.Failure? ==> r.error == PortError
  {
    match ParseInt10(v)
    case NaN => Failure(PortError)
    case Int(n) => if n < 0 || n > 65535 then Failure(PortError) else Success(n)
  }

  /** Every port number, written in decimal with any leading whitespace and any suffix
      that does not start with a digit, is accepted as itself. */
  lemma PortAccepted(lead: string, n: nat, suffix: string)
    requires AllWhitespace(lead)
    requires suffix == [] || !IsDigit(suffix[0])
    requires n <= 65535
    ensures ValidatePort(lead + Decimal(n) + suffix) == Success(n)
  {
    ParseDecimal(lead, n, suffix);
  }

  /** A sign and leading zeros are accepted as `parseInt` reads them: "+80" and "0080"
      give 80, and "-0" gives 0 (JavaScript's -0 is not below 0). */
  lemma PortSignedAccepted(lead: string, sign: string, d: string, suffix: string)
    requires AllWhitespace(lead)
    requires sign == "" || sign == "+" || sign == "-"
    requires d != "" && AllDigits(d)
    requires suffix == [] || !IsDigit(suffix[0])
    requires DigitsValue(d) <= 65535
    requires sign == "-" ==> DigitsValue(d) == 0
    ensures ValidatePort(lead + sign + d + suffix) == Success(DigitsValue(d))
  {
    if sign == "" {
      ParseNoSign(lead, d, suffix);
    } else {
      ParseSigned(lead, sign, d, suffix);
    }
    PortInRange(lead + sign + d + suffix, DigitsValue(d));
  }

  lemma ParseNoSign(lead: string, d: string, suffix: string)
    requires AllWhitespace(lead)
    requires d != "" && AllDigits(d)
    requires suffix == [] || !IsDigit(suffix[0])
    ensures ParseInt10(lead + "" + d + suffix) == Int(DigitsValue(d))
  {
    assert lead + "" == lead;
    ParseDigits(lead, d, suffix);
  }

  lemma PortInRange(v: string, n: int)
    requires ParseInt10(v) == Int(n) && 0 <= n <= 65535
    ensures ValidatePort(v) == Success(n)
  {
  }

  /** `parseInt` after whitespace and a sign: the sign applies to the digits that follow. */
  lemma ParseSigned(lead: string, sign: string, d: string, suffix: string)
    requires AllWhitespace(lead)
    requires sign == "+" || sign == "-"
    requires d != "" && AllDigits(d)
    requires suffix == [] || !IsDigit(suffix[0])
    ensures ParseInt10(lead + sign + d + suffix)
              == Int(if sign == "-" then -(DigitsValue(d) as int) else DigitsValue(d))
  {
    assert (sign + (d + suffix))[0] == sign[0];
    var t := sign + (d + suffix);
    SignedTrim(lead, sign, d, suffix);
    assert Unsigned(t) == d + suffix;
    LeadingDigitsOfNumber(d, suffix);
    ParseAfterSign(lead + sign + d + suffix, t, d);
  }

  /** Whitespace before a sign is all `trimStart` removes. */
  lemma SignedTrim(lead: string, sign: string, d: string, suffix: string)
    requires AllWhitespace(lead)
    requires sign == "+" || sign == "-"
    ensures TrimStart(lead + sign + d + suffix) == sign + (d + suffix)
  {
    var t := sign + (d + suffix);
    assert lead + sign + d + suffix == lead + t;
    assert t[0] == sign[0] && !IsWhitespace(t[0]);
    TrimStartAfterWhitespace(lead, t);
  }

  lemma ParseAfterSign(v: string, t: string, d: string)
    requires d != "" && AllDigits(d)
    requires TrimStart(v) == t && t != [] && (t[0] == '+' || t[0] == '-')
    requires LeadingDigits(Unsigned(t)) == d
    ensures ParseInt10(v) == Int(if t[0] == '-' then -(DigitsValue(d) as int) else DigitsValue(d))
  {
  }

  /** The sample inputs "+80", "0080" and "-0". */
  lemma PortSignedExamples()
    ensures ValidatePort("+80") == Success(80)
    ensures ValidatePort("0080") == Success(80)
    ensures ValidatePort("-0") == Success(0)
  {
    PlusEighty();
    ZeroPaddedEighty();
    MinusZero();
  }

  lemma PlusEighty()
    ensures ValidatePort("+80") == Success(80)
  {
    assert DigitsValue("8") == 8 by {
      assert "8"[..0] == "";
    }
    assert "80"[..1] == "8";
    PortSignedAccepted("", "+", "80", "");
    assert "" + "+" + "80" + "" == "+80";
  }

  lemma ZeroPaddedEighty()
    ensures ValidatePort("0080") == Success(80)
  {
    assert DigitsValue("0") == 0 by {
      assert "0"[..0] == "";
    }
    assert DigitsValue("00") == 0 by {
      assert "00"[..1] == "0";
    }
    assert DigitsValue("008") == 8 by {
      assert "008"[..2] == "00";
    }
    assert "0080"[..3] == "008";
    PortSignedAccepted("", "", "0080", "");
    assert "" + "" + "0080" + "" == "0080";
  }

  lemma MinusZero()
    ensures ValidatePort("-0") == Success(0)
  {
    assert DigitsValue("0") == 0 by {
      assert "0"[..0] == "";
    }
    PortSignedAccepted("", "-", "0", "");
    assert "" + "-" + "0" + "" == "-0";
  }

  /** Numbers above 65535 and negative numbers are refused; text with no digits after
      the whitespace and sign is refused. */
  lemma PortRefused(n: nat, v: string)
    ensures n > 65535 ==> ValidatePort(Decimal(n)).Failure?
    ensures n > 0 ==> ValidatePort("-" + Decimal(n)).Failure?
    ensures LeadingDigits(Unsigned(TrimStart(v))) == "" ==> ValidatePort(v).Failure?
  {
    ParseDecimal("", n, "");
    assert "" + Decimal(n) + "" == Decimal(n);
    ParseNegativeDecimal(n);
  }

  // ---------------------------------------------------------------------------
  // --extensions

  function TrimAll(xs: seq<string>): (r: seq<string>)
    ensures |r| == |xs|
    ensures forall i :: 0 <= i < |xs| ==> r[i] == Trim(xs[i])
  {
    if xs == [] then [] else [Trim(xs[0])] + TrimAll(xs[1..])
  }

  /** `extensions?.split(",").map((e) => e.trim())`. */
  function SplitExtensions(extensions: Option<string>): (r: Option<seq<string>>)
    ensures r.None? <==> extensions.None?
  {
    match extensions
    case None => None
    case Some(s) => Some(TrimAll(Split(s, ',')))
  }

  /** One extension per comma-separated piece, in order, each trimmed; the pieces
      re-join to the option text. */
  lemma ExtensionsPieces(s: string)
    ensures var r := SplitExtensions(Some(s)).value;
            && |r| == Count(s, ',') + 1
            && (forall i :: 0 <= i < |r| ==> r[i] == Trim(Split(s, ',')[i]))
            && Join(Split(s, ','), ",") == s
  {
    SplitLength(s, ',');
    JoinSplit(s, ',');
  }

  /** Comma-joining comma-free pieces and splitting them again gives the pieces back,
      trimmed: for example "js, ts, mjs" gives ["js", "ts", "mjs"]. */
  lemma ExtensionsRoundTrip(pieces: seq<string>)
    requires |pieces| >= 1
    requires forall i :: 0 <= i < |pieces| ==> ',' !in pieces[i]
    ensures SplitExtensions(Some(Join(pieces, ","))) == Some(TrimAll(pieces))
  {
    SplitJoin(pieces, ',');
  }

  // ---------------------------------------------------------------------------
  // The config passed to build

  datatype CliOptions = CliOptions(
    instance: bool, register: bool,
    endpoint: Option<string>, port: Option<string>,
    root: Option<string>, extensions: Option<string>)

  /** `{ endpoint, port, build: { root, extensions } }` after commander has run the port
      parser; a refused port stops the command with the parser's error. `build` is
      always an object, whichever options are given. */
  function BuildArgument(opts: CliOptions): (r: Result<ServerConfig, string>)
    ensures r.Failure? <==> opts.port.Some? && ValidatePort(opts.port.value).Failure?
    ensures r.Success? ==>
              && r.value.endpoint == opts.endpoint
              && r.value.middleware.None?
              && (r.value.port.Some? <==> opts.port.Some?)
              && (r.value.port.Some? ==> 0 <= r.value.port.value <= 65535)
              && (opts.port.Some? ==> r.value.port == Some(ValidatePort(opts.port.value).value))
              && r.value.build == Some(BuildOptions(opts.root, SplitExtensions(opts.extensions)))
  {
    var port: Result<Option<int>, string> :=
      match opts.port
      case None => Success(None)
      case Some(v) =>
        match ValidatePort(v)
        case Success(n) => Success(Some(n))
        case Failure(e) => Failure(e);
    match port
    case Failure(e) => Failure(e)
    case Success(p) =>
      Success(ServerConfig(opts.endpoint, p, None, Some(BuildOptions(opts.root, SplitExtensions(opts.extensions)))))
  }

  /** Without a config file `build` works with this argument, so `--root` decides the
      source root ("src" when not given) and the handler directories under it. */
  lemma CliSourceRoot(opts: CliOptions)
    requires BuildArgument(opts).Success?
    ensures Build.SourceRoot(BuildArgument(opts).value) == opts.root.GetOr("src")
    ensures Build.CategoryPaths(Build.SourceRoot(BuildArgument(opts).value))[2] == opts.root.GetOr("src") + "/events"
  {
  }

  // ---------------------------------------------------------------------------
  // The generated entry module

  /** `[instance && "createServer", register && "installCommands"].filter(Boolean)`:
      `false` and `undefined` are dropped, the names keep their order. */
  function ServerImports(instance: bool, register: bool): (r: seq<string>)
    ensures |r| == (if instance then 1 else 0) + (if register then 1 else 0)
    ensures instance ==> r[0] == "createServer"
    ensures register ==> r[|r| - 1] == "installCommands"
  {
    var xs := [if instance then Some("createServer") else None,
               if register then Some("installCommands") else None];
    KeepPresentPair(xs[0], xs[1]);
    assert xs == [xs[0], xs[1]];
    KeepPresent(xs)
  }

  lemma KeepPresentPair(a: Option<string>, b: Option<string>)
    ensures KeepPresent([a, b]) == (if a.Some? then [a.value] else []) + (if b.Some? then [b.value] else [])
  {
    assert [a, b][1..] == [b];
    assert [b][1..] == [];
  }

  /** `filter(Boolean)` on a list of names or falsy values. */
  function KeepPresent(xs: seq<Option<string>>): (r: seq<string>)
    ensures |r| <= |xs|
    ensures forall i :: 0 <= i < |r| ==> exists j :: 0 <= j < |xs| && xs[j] == Some(r[i])
    ensures forall j :: 0 <= j < |xs| && xs[j].Some? ==> xs[j].value in r
    ensures |r| == CountPresent(xs)
  {
    if xs == [] then []
    else
      var rest := KeepPresent(xs[1..]);
      assert forall i :: 0 <= i < |rest| ==> exists j :: 0 <= j < |xs| && xs[j] == Some(rest[i]) by {
        forall i | 0 <= i < |rest|
          ensures exists j :: 0 <= j < |xs| && xs[j] == Some(rest[i])
        {
          var j :| 0 <= j < |xs[1..]| && xs[1..][j] == Some(rest[i]);
          assert xs[j + 1] == Some(rest[i]);
        }
      }
      assert forall j :: 1 <= j < |xs| ==> xs[j] == xs[1..][j - 1];
      (if xs[0].Some? then [xs[0].value] else []) + rest
  }

  /** The number of present entries. */
  function CountPresent(xs: seq<Option<string>>): nat {
    if xs == [] then 0 else (if xs[0].Some? then 1 else 0) + CountPresent(xs[1..])
  }

  /** Filtering distributes over concatenation, so the kept names are the present
      ones in their original order. */
  lemma {:induction false} KeepPresentAppend(xs: seq<Option<string>>, ys: seq<Option<string>>)
    ensures KeepPresent(xs + ys) == KeepPresent(xs) + KeepPresent(ys)
  {
    if xs == [] {
      assert xs + ys == ys;
    } else {
      assert (xs + ys)[1..] == xs[1..] + ys;
      KeepPresentAppend(xs[1..], ys);
    }
  }

  /** A present entry is kept and a falsy one dropped. */
  lemma KeepPresentOne(x: Option<string>)
    ensures KeepPresent([x]) == (if x.Some? then [x.value] else [])
  {
    assert [x][1..] == [];
  }

  const ImportOpen := "import { "
  const ImportClose := " } from \"dressed/server\";"

  /** The first template line: the import from "dressed/server", or nothing. An array
      interpolated into a template string is joined with "," (no space). */
  function ImportLine(instance: bool, register: bool): string {
    if instance || register then ImportOpen + Join(ServerImports(instance, register), ",") + ImportClose
    else ""
  }

  /** The import line is present exactly when a server or a registration is asked for,
      and lists the names in the order createServer, installCommands. */
  lemma ImportLineContents(instance: bool, register: bool)
    ensures ImportLine(instance, register) != "" <==> instance || register
    ensures instance && register ==>
              ImportLine(instance, register) == ImportOpen + "createServer" + "," + "installCommands" + ImportClose
    ensures instance && !register ==> ImportLine(instance, register) == ImportOpen + "createServer" + ImportClose
    ensures !instance && register ==> ImportLine(instance, register) == ImportOpen + "installCommands" + ImportClose
  {
    var names := ServerImports(instance, register);
    if instance && register {
      assert names[1..] == ["installCommands"];
      assert Join(names, ",") == "createServer" + "," + "installCommands";
    }
  }

  /** The three fixed lines that apply the bundled config to `serverConfig`. */
  const Preamble := UtilsImport + "\n" + ConfigImport + "\n" + AssignConfig
  const UtilsImport := ImportOpen + "serverConfig } from \"dressed/utils\";"
  const ConfigImport := "import config from \"./dressed.config.mjs\";"
  const AssignConfig := "Object.assign(serverConfig, config);"
  const ExportLine := "export { config };"
  const InstallCall := "installCommands(commands);"
  const ServerCall := "createServer(commands, components, events);"

  /** The text of the entry module; `entries` is the import and export code the
      framework helpers generate for the discovered handler files. */
  function OutputContent(instance: bool, register: bool, entries: string): string {
    Template(ImportLine(instance, register), Preamble, entries, ExportLine,
             if register then InstallCall else "", if instance then ServerCall else "")
  }

  /** The template literal trimmed, with its interpolated parts as parameters. */
  function Template(imports: string, preamble: string, entries: string, exports: string,
                    install: string, start: string): string {
    Trim("\n" + imports + "\n" + preamble + "\n" + entries + "\n" + exports + "\n" + install + "\n" + start)
  }

  /** What comes first in the entry module. */
  function OutputHead(instance: bool, register: bool): string {
    if instance || register then ImportLine(instance, register) + "\n" + Preamble else Preamble
  }

  /** What follows the export line: the registration call when `register`, the server
      start when `instance`, each on its own line and in that order. */
  function OutputTail(instance: bool, register: bool): string {
    if instance then "\n" + (if register then InstallCall else "") + "\n" + ServerCall
    else if register then "\n" + InstallCall
    else ""
  }

  /** After trimming, the entry module starts with the server import (when asked for) or
      the preamble, and ends with the export line followed by exactly the call lines
      the flags ask for. */
  lemma OutputShape(instance: bool, register: bool, entries: string)
    ensures OutputContent(instance, register, entries)
              == OutputHead(instance, register) + "\n" + entries + "\n" + ExportLine + OutputTail(instance, register)
  {
    var imports := ImportLine(instance, register);
    var install := if register then InstallCall else "";
    var start := if instance then ServerCall else "";
    PartEdges(instance, register);
    TemplateShape(imports, Preamble, entries, ExportLine, install, start);
    assert OutputHead(instance, register) == TemplateHead(imports, Preamble) by {
      ImportLineContents(instance, register);
    }
    assert OutputTail(instance, register) == TemplateTail(install, start);
  }

  /** The parts around the handler code start and end with characters other than
      whitespace, so trimming stops at them. */
  lemma PartEdges(instance: bool, register: bool)
    ensures var imports := ImportLine(instance, register);
            imports == [] || !IsWhitespace(imports[0])
    ensures Preamble != [] && !IsWhitespace(Preamble[0])
    ensures !IsWhitespace(ExportLine[|ExportLine| - 1])
    ensures !IsWhitespace(InstallCall[|InstallCall| - 1])
    ensures !IsWhitespace(ServerCall[|ServerCall| - 1])
  {
    if instance || register {
      var names := Join(ServerImports(instance, register), ",");
      assert (ImportOpen + names)[0] == ImportOpen[0];
    }
    assert Preamble == ImportOpen + ("serverConfig } from \"dressed/utils\";\n" + ConfigImport + "\n" + AssignConfig);
  }

  /** The trimmed template drops the blank lines of the parts left empty at either end. */
  lemma TemplateShape(imports: string, preamble: string, entries: string, exports: string,
                      install: string, start: string)
    requires imports == [] || !IsWhitespace(imports[0])
    requires preamble != [] && !IsWhitespace(preamble[0])
    requires exports != [] && !IsWhitespace(exports[|exports| - 1])
    requires install == [] || !IsWhitespace(install[|install| - 1])
    requires start == [] || !IsWhitespace(start[|start| - 1])
    ensures Template(imports, preamble, entries, exports, install, start)
              == TemplateHead(imports, preamble) + "\n" + entries + "\n" + exports + TemplateTail(install, start)
  {
    var head := TemplateHead(imports, preamble);
    var tail := TemplateTail(install, start);
    var middle := "\n" + entries + "\n" + exports;
    var mid := head + middle + tail;
    var lead := if imports != [] then "\n" else "\n\n";
    var trail := if start != [] then "" else if install != [] then "\n" else "\n\n";
    TemplateSplit(imports, preamble, entries, exports, install, start);
    FrontRegroup(imports, preamble);
    BackRegroup(entries, exports, install, start);
    FrameRegroup(lead, head, middle, tail, trail);
    assert mid[0] == head[0] by {
      assert mid == head + (middle + tail);
    }
    assert mid[|mid| - 1] == (if tail != [] then tail[|tail| - 1] else exports[|exports| - 1]) by {
      assert (head + middle)[|head + middle| - 1] == exports[|exports| - 1];
    }
    TrimFrame(lead, mid, trail);
    MidRegroup(head, entries, exports, tail);
  }

  lemma TemplateSplit(imports: string, preamble: string, entries: string, exports: string,
                      install: string, start: string)
    ensures "\n" + imports + "\n" + preamble + "\n" + entries + "\n" + exports + "\n" + install + "\n" + start
              == ("\n" + imports + "\n" + preamble) + ("\n" + entries + "\n" + exports + "\n" + install + "\n" + start)
  {
  }

  lemma FrontRegroup(imports: string, preamble: string)
    ensures "\n" + imports + "\n" + preamble
              == (if imports != [] then "\n" else "\n\n") + TemplateHead(imports, preamble)
  {
  }

  lemma BackRegroup(entries: string, exports: string, install: string, start: string)
    ensures "\n" + entries + "\n" + exports + "\n" + install + "\n" + start
              == "\n" + entries + "\n" + exports + TemplateTail(install, start)
                 + (if start != [] then "" else if install != [] then "\n" else "\n\n")
  {
  }

  lemma MidRegroup(head: string, entries: string, exports: string, tail: string)
    ensures head + ("\n" + entries + "\n" + exports) + tail == head + "\n" + entries + "\n" + exports + tail
  {
  }

  lemma FrameRegroup(lead: string, head: string, middle: string, tail: string, trail: string)
    ensures (lead + head) + (middle + tail + trail) == lead + (head + middle + tail) + trail
  {
  }

  /** Whitespace around a part that starts and ends with other characters is all
      that trimming removes. */
  lemma TrimFrame(lead: string, mid: string, trail: string)
    requires AllWhitespace(lead) && AllWhitespace(trail)
    requires mid != [] && !IsWhitespace(mid[0]) && !IsWhitespace(mid[|mid| - 1])
    ensures Trim(lead + mid + trail) == mid
  {
    assert (mid + trail)[0] == mid[0];
    ConcatAssoc(lead, mid, trail);
    TrimStartAfterWhitespace(lead, mid + trail);
    TrimEndBeforeWhitespace(mid, trail);
  }

  function TemplateHead(imports: string, preamble: string): string {
    if imports != [] then imports + "\n" + preamble else preamble
  }

  function TemplateTail(install: string, start: string): string {
    if start != [] then "\n" + install + "\n" + start
    else if install != [] then "\n" + install
    else ""
  }
  // ---------------------------------------------------------------------------
  // The success message

  /** `instancePrefix`: the tree branch before "Starts a server instance". */
  function InstancePrefix(register: bool): string {
    if register then "├" else "└"
  }

  /** The detail lines of the success message that are not empty, in order. */
  function SuccessDetails(instance: bool, register: bool): seq<string> {
    (if instance then ["\n" + InstancePrefix(register) + " Starts a server instance"] else [])
      + (if register then ["\n└ Registers commands"] else [])
  }

  /** The success message draws a tree: the last detail line uses "└" and every earlier
      one "├". */
  lemma SuccessTree(instance: bool, register: bool)
    ensures var d := SuccessDetails(instance, register);
            && |d| == (if instance then 1 else 0) + (if register then 1 else 0)
            && (forall k :: 0 <= k < |d| ==> |d[k]| >= 2 && d[k][0] == '\n')
            && (forall k :: 0 <= k < |d| - 1 ==> d[k][1] == '├')
            && (|d| > 0 ==> d[|d| - 1][1] == '└')
  {
  }
}
