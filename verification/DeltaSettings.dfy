/** The text form of the delta codec's settings. */
module DeltaSettings {
  import opened Wrappers
  import opened Delta

  const ULONG_MODULUS: int := 0x1_0000_0000_0000_0000
  const INT_MAX: int := 0x7fff_ffff
  const DEFAULT_PAGE_SIZE: nat := 4096
  const DEFAULT_ZSTD_LEVEL: int := 1

  const DEFAULTS := Settings(false, DEFAULT_PAGE_SIZE, false, false, DEFAULT_ZSTD_LEVEL)

  // ------------------------------------------------------------------ numbers

  predicate IsDigit(c: char) {
    '0' <= c <= '9'
  }

  function Digit(n: nat): (c: char)
    requires n < 10
    ensures IsDigit(c) && c as int - '0' as int == n
  {
    '0' + n as char
  }

  function Digits(n: nat): (s: string)
    ensures s != "" && forall i :: 0 <= i < |s| ==> IsDigit(s[i])
  {
    if n < 10 then [Digit(n)] else Digits(n / 10) + [Digit(n % 10)]
  }

  function DigitValue(c: char): nat
    requires IsDigit(c)
  {
    c as int - '0' as int
  }

  function Value(s: string): nat
    requires forall i :: 0 <= i < |s| ==> IsDigit(s[i])
  {
    if s == "" then 0 else 10 * Value(s[..|s| - 1]) + DigitValue(s[|s| - 1])
  }

  lemma {:induction false} DigitsValue(n: nat)
    ensures Value(Digits(n)) == n
  {
    if n >= 10 {
      DigitsValue(n / 10);
      assert Digits(n)[..|Digits(n)| - 1] == Digits(n / 10);
    }
  }

  function LeadingDigits(s: string): (n: nat)
    ensures n <= |s| && (forall i :: 0 <= i < n ==> IsDigit(s[i])) && (n < |s| ==> !IsDigit(s[n]))
  {
    if s == "" || !IsDigit(s[0]) then 0 else 1 + LeadingDigits(s[1..])
  }

  predicate IsSpace(c: char) {
    c == ' ' || '\t' <= c <= '\r'
  }

  function SkipSpaces(s: string): string {
    if s != "" && IsSpace(s[0]) then SkipSpaces(s[1..]) else s
  }

  function Unsigned(s: string): Option<int> {
    var n := LeadingDigits(s);
    if n == 0 then None else Some(Value(s[..n]))
  }

  function Negated(n: Option<int>): Option<int> {
    if n.None? then None else Some(-n.value)
  }

  function Signed(s: string): Option<int> {
    if s != "" && s[0] == '-' then Negated(Unsigned(s[1..]))
    else if s != "" && s[0] == '+' then Unsigned(s[1..])
    else Unsigned(s)
  }

  /** The number a text begins with, after blanks and a sign; what follows it is ignored. */
  function Number(s: string): Option<int> {
    Signed(SkipSpaces(s))
  }

  /** Unsigned: what is out of range is an error, and a minus sign wraps around. */
  function Stoul(s: string): Option<nat> {
    match Number(s)
    case None => None
    case Some(n) => if -ULONG_MODULUS < n < ULONG_MODULUS then Some(n % ULONG_MODULUS) else None
  }

  function Stoi(s: string): Option<int> {
    match Number(s)
    case None => None
    case Some(n) => if -INT_MAX - 1 <= n <= INT_MAX then Some(n) else None
  }

  function Decimal(n: int): string {
    if n < 0 then "-" + Digits(-n) else Digits(n)
  }

  lemma AllDigits(s: string)
    requires forall i :: 0 <= i < |s| ==> IsDigit(s[i])
    ensures LeadingDigits(s) == |s|
  {
  }

  lemma DecimalNumber(n: int)
    ensures Number(Decimal(n)) == Some(n)
  {
    var digits := Digits(if n < 0 then -n else n);
    AllDigits(digits);
    DigitsValue(if n < 0 then -n else n);
    assert IsDigit(digits[0]);
    hide Digits, Value, LeadingDigits;
    assert digits[..|digits|] == digits;
    assert n < 0 ==> Decimal(n)[1..] == digits;
    assert SkipSpaces(Decimal(n)) == Decimal(n);
  }

  // ------------------------------------------------------------------ parsing

  function Cut(s: string): (k: nat)
    ensures k <= |s| && (k < |s| ==> s[k] == ';') && forall i :: 0 <= i < k ==> s[i] != ';'
  {
    if s == "" || s[0] == ';' then 0 else 1 + Cut(s[1..])
  }

  /** The parts between semicolons; nothing follows the last one. */
  function Parts(s: string): seq<string>
    decreases |s|
  {
    if s == "" then []
    else
      var k := Cut(s);
      [s[..k]] + Parts(if k < |s| then s[k + 1..] else "")
  }

  const PAGES := "pages="
  const XOR := "xor"
  const ZSTD := "zstd="

  function Part(cfg: Settings, part: string): Result<Settings, string> {
    if |part| < 1 then Ok(cfg)
    else if PAGES <= part then
      match Stoul(part[|PAGES|..])
      case None => Err("Not a page size")
      case Some(n) => Ok(cfg.(usePages := true, pageSize := n))
    else if part == XOR then Ok(cfg.(xorWithOld := true))
    else if ZSTD <= part then
      match Stoi(part[|ZSTD|..])
      case None => Err("Not a compression level")
      case Some(n) => Ok(cfg.(useZstd := true, zstdLevel := n))
    else Err("Invalid DeltaSettings configuration argument")
  }

  function Read(cfg: Settings, parts: seq<string>): Result<Settings, string>
    decreases |parts|
  {
    if parts == [] then Ok(cfg)
    else
      match Part(cfg, parts[0])
      case Err(e) => Err(e)
      case Ok(next) => Read(next, parts[1..])
  }

  /** A part that can be read: empty, the word for xor, or one of the two numbers, in the range of its type. */
  predicate Valid(part: string) {
    || part == ""
    || part == XOR
    || (PAGES <= part && Number(part[|PAGES|..]).Some?
        && -ULONG_MODULUS < Number(part[|PAGES|..]).value < ULONG_MODULUS)
    || (ZSTD <= part && Number(part[|ZSTD|..]).Some?
        && -INT_MAX - 1 <= Number(part[|ZSTD|..]).value <= INT_MAX)
  }

  lemma PartFails(cfg: Settings, part: string)
    ensures Part(cfg, part).Ok? <==> Valid(part)
  {
    hide Number;
    if PAGES <= part {
      assert part[0] == 'p';
    }
  }

  /** Reading parts is an error exactly if one of them cannot be read. */
  lemma {:induction false} ReadFails(cfg: Settings, parts: seq<string>)
    ensures Read(cfg, parts).Err? <==> exists k :: 0 <= k < |parts| && !Valid(parts[k])
    decreases |parts|
  {
    hide Part, Valid;
    if parts != [] {
      PartFails(cfg, parts[0]);
      if Part(cfg, parts[0]).Ok? {
        ReadFails(Part(cfg, parts[0]).value, parts[1..]);
        if k :| 0 <= k < |parts| && !Valid(parts[k]) {
          assert !Valid(parts[1..][k - 1]);
        }
      }
    }
  }

  method Parse(definition: string) returns (r: Result<Settings, string>)
    ensures r == Read(DEFAULTS, Parts(definition))
    ensures r.Err? <==> exists k :: 0 <= k < |Parts(definition)| && !Valid(Parts(definition)[k])
  {
    ReadFails(DEFAULTS, Parts(definition));
    hide Valid;
    var cfg, rest := DEFAULTS, definition;
    while rest != ""
      invariant Read(cfg, Parts(rest)) == Read(DEFAULTS, Parts(definition))
      decreases |rest|
    {
      var k := Cut(rest);
      var part := rest[..k];
      var after := if k < |rest| then rest[k + 1..] else "";
      assert Parts(rest) == [part] + Parts(after);
      assert Parts(rest)[1..] == Parts(after);
      if |part| >= 1 {
        if PAGES <= part {
          var pageSize := Stoul(part[|PAGES|..]);
          if pageSize == None {
            return Err("Not a page size");
          }
          cfg := cfg.(usePages := true, pageSize := pageSize.value);
        } else if part == XOR {
          cfg := cfg.(xorWithOld := true);
        } else if ZSTD <= part {
          var level := Stoi(part[|ZSTD|..]);
          if level == None {
            return Err("Not a compression level");
          }
          cfg := cfg.(useZstd := true, zstdLevel := level.value);
        } else {
          return Err("Invalid DeltaSettings configuration argument");
        }
      }
      rest := after;
    }
    return Ok(cfg);
  }

  // ----------------------------------------------------------------- printing

  function Printed(cfg: Settings): string {
    PagesText(cfg) + XorText(cfg) + ZstdText(cfg)
  }

  function PagesText(cfg: Settings): string {
    if cfg.usePages then PAGES + Decimal(cfg.pageSize) + ";" else ""
  }

  function XorText(cfg: Settings): string {
    if cfg.xorWithOld then XOR + ";" else ""
  }

  function ZstdText(cfg: Settings): string {
    if cfg.useZstd then ZSTD + Decimal(cfg.zstdLevel) + ";" else ""
  }

  method ToString(cfg: Settings) returns (s: string)
    ensures s == Printed(cfg)
  {
    hide Decimal;
    s := "";
    if cfg.usePages {
      s := s + PAGES + Decimal(cfg.pageSize) + ";";
    }
    assert s == PagesText(cfg);
    if cfg.xorWithOld {
      s := s + XOR + ";";
    }
    assert s == PagesText(cfg) + XorText(cfg);
    if cfg.useZstd {
      s := s + ZSTD + Decimal(cfg.zstdLevel) + ";";
    }
  }

  predicate Plain(s: string) {
    forall i :: 0 <= i < |s| ==> s[i] != ';'
  }

  lemma {:induction false} CutPlain(part: string, rest: string)
    requires Plain(part)
    ensures Cut(part + ";" + rest) == |part|
    decreases |part|
  {
    var s := part + ";" + rest;
    if part != "" {
      assert s[1..] == part[1..] + ";" + rest;
      CutPlain(part[1..], rest);
    }
  }

  lemma PartsOf(part: string, rest: string)
    requires Plain(part)
    ensures Parts(part + ";" + rest) == [part] + Parts(rest)
  {
    var s := part + ";" + rest;
    CutPlain(part, rest);
    assert s[..|part|] == part && s[|part| + 1..] == rest;
  }

  /** Reading one part and then the rest of a text. */
  lemma ReadPart(cfg: Settings, part: string, rest: string, next: Settings)
    requires Plain(part) && Part(cfg, part) == Ok(next)
    ensures Read(cfg, Parts(part + ";" + rest)) == Read(next, Parts(rest))
  {
    PartsOf(part, rest);
    assert ([part] + Parts(rest))[1..] == Parts(rest);
  }

  lemma DecimalPlain(n: int)
    ensures Plain(Decimal(n))
  {
  }

  predicate Representable(cfg: Settings) {
    cfg.pageSize < ULONG_MODULUS && -INT_MAX - 1 <= cfg.zstdLevel <= INT_MAX
  }

  lemma PagesPart(cfg: Settings, n: nat)
    requires n < ULONG_MODULUS
    ensures Plain(PAGES + Decimal(n))
    ensures Part(cfg, PAGES + Decimal(n)) == Ok(cfg.(usePages := true, pageSize := n))
  {
    DecimalPlain(n);
    DecimalNumber(n);
    hide Decimal, Number;
    assert (PAGES + Decimal(n))[|PAGES|..] == Decimal(n);
  }

  lemma ZstdPart(cfg: Settings, n: int)
    requires -INT_MAX - 1 <= n <= INT_MAX
    ensures Plain(ZSTD + Decimal(n))
    ensures Part(cfg, ZSTD + Decimal(n)) == Ok(cfg.(useZstd := true, zstdLevel := n))
  {
    DecimalPlain(n);
    DecimalNumber(n);
    hide Decimal, Number;
    assert (ZSTD + Decimal(n))[|ZSTD|..] == Decimal(n);
    assert (ZSTD + Decimal(n))[0] == 'z';
  }

  /** What the text keeps: the size of pages and the level only where they are used. */
  function Kept(cfg: Settings): Settings {
    cfg.(pageSize := if cfg.usePages then cfg.pageSize else DEFAULT_PAGE_SIZE,
         zstdLevel := if cfg.useZstd then cfg.zstdLevel else DEFAULT_ZSTD_LEVEL)
  }

  lemma XorPart(cfg: Settings)
    ensures Plain(XOR) && Part(cfg, XOR) == Ok(cfg.(xorWithOld := true))
  {
  }

  lemma ReadNothing(cfg: Settings)
    ensures Read(cfg, Parts("")) == Ok(cfg)
  {
  }

  lemma ZstdRead(cfg: Settings, into: Settings)
    requires Representable(cfg)
    ensures Read(into, Parts(ZstdText(cfg)))
      == Ok(if cfg.useZstd then into.(useZstd := true, zstdLevel := cfg.zstdLevel) else into)
  {
    hide Decimal, Parts, Read, Part;
    var next := if cfg.useZstd then into.(useZstd := true, zstdLevel := cfg.zstdLevel) else into;
    ReadNothing(next);
    if cfg.useZstd {
      ZstdPart(into, cfg.zstdLevel);
      assert ZstdText(cfg) == ZSTD + Decimal(cfg.zstdLevel) + ";" + "";
      ReadPart(into, ZSTD + Decimal(cfg.zstdLevel), "", next);
    }
  }

  lemma XorRead(cfg: Settings, into: Settings, rest: string)
    ensures Read(into, Parts(XorText(cfg) + rest))
      == Read(if cfg.xorWithOld then into.(xorWithOld := true) else into, Parts(rest))
  {
    hide Parts, Read, Part;
    if cfg.xorWithOld {
      XorPart(into);
      ReadPart(into, XOR, rest, into.(xorWithOld := true));
    } else {
      assert "" + rest == rest;
    }
  }

  lemma PagesRead(cfg: Settings, into: Settings, rest: string)
    requires Representable(cfg)
    ensures Read(into, Parts(PagesText(cfg) + rest))
      == Read(if cfg.usePages then into.(usePages := true, pageSize := cfg.pageSize) else into, Parts(rest))
  {
    hide Decimal, Parts, Read, Part;
    if cfg.usePages {
      PagesPart(into, cfg.pageSize);
      ReadPart(into, PAGES + Decimal(cfg.pageSize), rest, into.(usePages := true, pageSize := cfg.pageSize));
    } else {
      assert "" + rest == rest;
    }
  }

  /** Settings read back from their text are the settings, exactly if what is not used has its default. */
  lemma SettingsRoundTrip(cfg: Settings)
    requires Representable(cfg)
    ensures Read(DEFAULTS, Parts(Printed(cfg))) == Ok(Kept(cfg))
    ensures Read(DEFAULTS, Parts(Printed(cfg))) == Ok(cfg) <==>
      (cfg.usePages || cfg.pageSize == DEFAULT_PAGE_SIZE) && (cfg.useZstd || cfg.zstdLevel == DEFAULT_ZSTD_LEVEL)
  {
    var paged := if cfg.usePages then DEFAULTS.(usePages := true, pageSize := cfg.pageSize) else DEFAULTS;
    var xored := if cfg.xorWithOld then paged.(xorWithOld := true) else paged;
    hide Parts, Read, PagesText, XorText, ZstdText;
    assert Printed(cfg) == PagesText(cfg) + (XorText(cfg) + ZstdText(cfg));
    PagesRead(cfg, DEFAULTS, XorText(cfg) + ZstdText(cfg));
    XorRead(cfg, paged, ZstdText(cfg));
    ZstdRead(cfg, xored);
  }

  function AtLevel(ch: Change, level: int): (c: Change)
    ensures c.newData == ch.newData && c.oldData == ch.oldData && c.beyond == ch.beyond
    ensures c.cfg.pageSize == ch.cfg.pageSize && c.cfg.xorWithOld == ch.cfg.xorWithOld
    ensures c.cfg.usePages == ch.cfg.usePages && c.cfg.zstdLevel == level
  {
    ch.(cfg := ch.cfg.(zstdLevel := level))
  }

  lemma PageAlike(test: PageTest, ch: Change, level: int, start: nat)
    requires start < |ch.newData|
    ensures PageActions(test, AtLevel(ch, level), start) == PageActions(test, ch, start)
  {
    hide AtLevel, AnyNonZero, XorBytes;
    assert TestedBytes(AtLevel(ch, level), start) == TestedBytes(ch, start);
    hide TestedBytes;
  }

  lemma {:induction false} PagesAlike(test: PageTest, ch: Change, level: int, from: nat)
    requires ch.cfg.pageSize > 0
    ensures PagedActions(test, AtLevel(ch, level), from) == PagedActions(test, ch, from)
    decreases |ch.newData| - from
  {
    hide PageActions, AtLevel;
    if from < |ch.newData| {
      PageAlike(test, ch, level, from);
      PagesAlike(test, ch, level, from + ch.cfg.pageSize);
    }
  }

  /** The text keeps all that a delta depends on. */
  lemma KeptSerializesAlike(test: PageTest, ch: Change, codec: Codec)
    requires Usable(ch)
    ensures Serialized(test, ch.(cfg := Kept(ch.cfg)), codec) == Serialized(test, ch, codec)
  {
    var kept := ch.(cfg := Kept(ch.cfg));
    if ch.cfg.usePages {
      PagesAlike(test, ch, Kept(ch.cfg).zstdLevel, 0);
    }
    assert RegionActions(test, kept) == RegionActions(test, ch);
    hide RegionActions;
  }

  /** So settings with the same text give the same delta of the same buffers. */
  lemma SameTextSameDelta(test: PageTest, ch: Change, other: Settings, codec: Codec)
    requires Usable(ch) && Representable(ch.cfg) && Representable(other) && Printed(ch.cfg) == Printed(other)
    ensures Usable(ch.(cfg := other))
    ensures Serialized(test, ch.(cfg := other), codec) == Serialized(test, ch, codec)
  {
    SettingsRoundTrip(ch.cfg);
    SettingsRoundTrip(other);
    var second := ch.(cfg := other);
    assert Kept(ch.cfg) == Kept(other);
    hide Serialized, Printed, Read, Parts;
    KeptSerializesAlike(test, ch, codec);
    KeptSerializesAlike(test, second, codec);
    assert second.(cfg := Kept(other)) == ch.(cfg := Kept(ch.cfg));
  }
}
