/** What the text of the settings means: its parts, its numbers, and which part decides each setting. */
module DeltaSettingsMeaning {
  import opened Wrappers
  import opened Delta
  import opened DeltaSettings

  // -------------------------------------------------------------------- parts

  /** Some parts, each with its semicolon. */
  function Terminated(parts: seq<string>): string {
    if parts == [] then "" else parts[0] + ";" + Terminated(parts[1..])
  }

  predicate Unterminated(s: string) {
    s != "" && s[|s| - 1] != ';'
  }

  /** A text begins with a part, followed by the end or by a semicolon and the rest. */
  lemma FirstPart(s: string, k: nat, rest: string)
    requires s != "" && k == Cut(s) && rest == if k < |s| then s[k + 1..] else ""
    ensures k <= |s| && |rest| < |s| && Plain(s[..k]) && Parts(s) == [s[..k]] + Parts(rest)
  {
    hide Cut;
  }

  lemma PartEnds(s: string, k: nat, rest: string)
    requires k < |s| && s[k] == ';' && rest == s[k + 1..]
    ensures s == s[..k] + ";" + rest && (Unterminated(s) <==> Unterminated(rest))
  {
    if rest != "" {
      assert rest[|rest| - 1] == s[|s| - 1];
    }
  }

  lemma PartIsAll(s: string)
    requires s != "" && Cut(s) == |s|
    ensures s[..|s|] == s && Unterminated(s)
  {
    hide Cut;
  }

  lemma TerminatedMore(part: string, parts: seq<string>)
    ensures Terminated([part] + parts) == part + ";" + Terminated(parts)
  {
    assert ([part] + parts)[1..] == parts;
  }

  /** The parts of a text hold no semicolon and make up the text, the last one with or without its semicolon. */
  lemma {:induction false} PartsCover(s: string)
    ensures forall k :: 0 <= k < |Parts(s)| ==> Plain(Parts(s)[k])
    ensures Terminated(Parts(s)) == if Unterminated(s) then s + ";" else s
    decreases |s|
  {
    hide Plain, Parts, Terminated, Unterminated;
    if s == "" {
      NoParts();
    } else {
      var k := Cut(s);
      var rest := if k < |s| then s[k + 1..] else "";
      FirstPart(s, k, rest);
      PartsCover(rest);
      TerminatedMore(s[..k], Parts(rest));
      NoParts();
      if k == |s| {
        PartIsAll(s);
      } else {
        PartEnds(s, k, rest);
        assert s[..k] + ";" + (rest + ";") == s[..k] + ";" + rest + ";";
      }
    }
  }

  /** No other list of parts does. */
  lemma {:induction false} PartsUnique(parts: seq<string>)
    requires forall k :: 0 <= k < |parts| ==> Plain(parts[k])
    ensures Parts(Terminated(parts)) == parts
    decreases |parts|
  {
    hide Parts, Plain;
    if parts != [] {
      PartsUnique(parts[1..]);
      PartsOf(parts[0], Terminated(parts[1..]));
    } else {
      NoParts();
    }
  }

  lemma NoParts()
    ensures Parts("") == [] && Terminated([]) == "" && !Unterminated("")
  {
  }

  /** The semicolon after the last part may be left out. */
  lemma LastSemicolonOptional(s: string)
    requires Unterminated(s)
    ensures Parts(s) == Parts(s + ";")
  {
    hide Parts;
    PartsCover(s);
    PartsUnique(Parts(s));
  }

  // ------------------------------------------------------------------ numbers

  predicate AllDigit(s: string) {
    forall i :: 0 <= i < |s| ==> IsDigit(s[i])
  }

  /** Blanks, perhaps a sign, digits, and something that does not go on with a digit. */
  datatype Numeral = Numeral(blanks: string, sign: string, digits: string, rest: string)

  predicate WellFormed(n: Numeral) {
    && (forall i :: 0 <= i < |n.blanks| ==> IsSpace(n.blanks[i]))
    && n.sign in ["", "+", "-"]
    && n.digits != "" && AllDigit(n.digits)
    && (n.rest == "" || !IsDigit(n.rest[0]))
  }

  function Text(n: Numeral): string {
    n.blanks + n.sign + n.digits + n.rest
  }

  lemma {:induction false} SpacesSkipped(blanks: string, rest: string)
    requires forall i :: 0 <= i < |blanks| ==> IsSpace(blanks[i])
    requires rest == "" || !IsSpace(rest[0])
    ensures SkipSpaces(blanks + rest) == rest
    decreases |blanks|
  {
    if blanks == "" {
      assert blanks + rest == rest;
    } else {
      assert (blanks + rest)[1..] == blanks[1..] + rest;
      SpacesSkipped(blanks[1..], rest);
    }
  }

  lemma {:induction false} SpacesBefore(s: string) returns (k: nat)
    ensures k <= |s| && s[k..] == SkipSpaces(s) && forall i :: 0 <= i < k ==> IsSpace(s[i])
    decreases |s|
  {
    k := 0;
    if s != "" && IsSpace(s[0]) {
      var later := SpacesBefore(s[1..]);
      k := later + 1;
      assert s[k..] == s[1..][later..];
      assert forall i :: 0 < i < k ==> s[i] == s[1..][i - 1];
    }
  }

  lemma {:induction false} DigitsTaken(digits: string, rest: string)
    requires AllDigit(digits) && (rest == "" || !IsDigit(rest[0]))
    ensures LeadingDigits(digits + rest) == |digits|
    decreases |digits|
  {
    if digits == "" {
      assert digits + rest == rest;
    } else {
      assert (digits + rest)[1..] == digits[1..] + rest;
      DigitsTaken(digits[1..], rest);
    }
  }

  lemma FirstChar(n: Numeral, t: string)
    requires WellFormed(n) && t == n.sign + (n.digits + n.rest)
    ensures t != "" && !IsSpace(t[0])
    ensures n.sign == "" ==> t == n.digits + n.rest && IsDigit(t[0])
    ensures n.sign != "" ==> t[1..] == n.digits + n.rest && [t[0]] == n.sign
  {
    assert (n.digits + n.rest)[0] == n.digits[0];
  }

  lemma UnsignedOf(digits: string, rest: string)
    requires digits != "" && AllDigit(digits) && (rest == "" || !IsDigit(rest[0]))
    ensures Unsigned(digits + rest) == Some(Value(digits))
  {
    hide LeadingDigits, Value;
    DigitsTaken(digits, rest);
    assert (digits + rest)[..|digits|] == digits;
  }

  /** The number of such a text is that of its digits, with its sign. */
  lemma NumberOf(n: Numeral)
    requires WellFormed(n)
    ensures Number(Text(n)) == Some(if n.sign == "-" then -(Value(n.digits) as int) else Value(n.digits))
  {
    var t := n.sign + (n.digits + n.rest);
    FirstChar(n, t);
    SpacesSkipped(n.blanks, t);
    TextOf(n, n.digits + n.rest, t);
    UnsignedOf(n.digits, n.rest);
    hide Unsigned, SkipSpaces, Value, Text;
  }

  lemma DigitsOf(u: string) returns (digits: string, rest: string)
    requires Unsigned(u).Some?
    ensures digits != "" && AllDigit(digits) && (rest == "" || !IsDigit(rest[0])) && digits + rest == u
  {
    hide LeadingDigits, Value, IsDigit;
    digits, rest := u[..LeadingDigits(u)], u[LeadingDigits(u)..];
  }

  /** What follows the blanks of a text with a number, taken apart. */
  lemma AfterBlanks(blanks: string, t: string) returns (n: Numeral)
    requires Signed(t).Some? && forall i :: 0 <= i < |blanks| ==> IsSpace(blanks[i])
    ensures WellFormed(n) && n.blanks == blanks && n.sign + (n.digits + n.rest) == t
  {
    hide Unsigned, IsDigit, IsSpace;
    var signed := t != "" && (t[0] == '-' || t[0] == '+');
    var digits, rest := DigitsOf(if signed then t[1..] else t);
    n := Numeral(blanks, if signed then [t[0]] else "", digits, rest);
  }

  lemma TextOf(n: Numeral, u: string, t: string)
    requires u == n.digits + n.rest && t == n.sign + u
    ensures Text(n) == n.blanks + t
  {
  }

  lemma TakenApart(s: string) returns (n: Numeral)
    requires Number(s).Some?
    ensures WellFormed(n) && Text(n) == s
  {
    hide Signed, WellFormed, SkipSpaces, IsSpace;
    var k := SpacesBefore(s);
    n := AfterBlanks(s[..k], s[k..]);
    TextOf(n, n.digits + n.rest, s[k..]);
    assert s[..k] + s[k..] == s;
  }

  /** A text has a number exactly if it is such a text. */
  lemma NumberExactly(s: string)
    ensures Number(s).Some? <==> exists n :: WellFormed(n) && Text(n) == s
  {
    hide *;
    if n :| WellFormed(n) && Text(n) == s {
      NumberOf(n);
    }
    if Number(s).Some? {
      var n := TakenApart(s);
    }
  }

  lemma {:induction false} DigitsLead(n: nat)
    ensures Digits(n)[0] == '0' <==> n == 0
  {
    if n >= 10 {
      DigitsLead(n / 10);
    }
  }

  /** A number is printed with a minus sign exactly if it is negative, and without leading zeros. */
  lemma DecimalCanonical(n: int)
    ensures Decimal(n)[0] == '-' <==> n < 0
    ensures Decimal(n)[0] == '0' <==> n == 0
    ensures n < 0 ==> |Decimal(n)| > 1 && Decimal(n)[1] != '0'
  {
    DigitsLead(if n < 0 then -n else n);
    hide Digits;
  }

  /** Numbers in the range of their type are taken as they are, but for a minus sign before an unsigned one. */
  lemma InRange(s: string)
    requires Number(s).Some?
    ensures var n := Number(s).value;
      && (Stoi(s) == Some(n) <==> -0x8000_0000 <= n < 0x8000_0000)
      && (Stoul(s) == Some(n) <==> 0 <= n < ULONG_MODULUS)
      && (Stoul(s) == Some(n + ULONG_MODULUS) <==> -ULONG_MODULUS < n < 0)
  {
    hide Number;
  }

  // ------------------------------------------------------- which part decides

  /** The last part with a prefix. */
  function LastWith(parts: seq<string>, prefix: string): Option<string> {
    if parts == [] then None
    else
      var last := parts[|parts| - 1];
      if prefix <= last then Some(last) else LastWith(parts[..|parts| - 1], prefix)
  }

  lemma {:induction false} ReadLast(cfg: Settings, parts: seq<string>, last: string)
    ensures Read(cfg, parts + [last])
         == match Read(cfg, parts)
            case Err(e) => Err(e)
            case Ok(next) => Part(next, last)
    decreases |parts|
  {
    hide Part;
    if parts == [] {
      assert parts + [last] == [last] && [last][1..] == [];
    } else {
      assert (parts + [last])[0] == parts[0] && (parts + [last])[1..] == parts[1..] + [last];
      match Part(cfg, parts[0])
      case Err(e) =>
      case Ok(next) => ReadLast(next, parts[1..], last);
    }
  }

  lemma LastWithHas(parts: seq<string>, prefix: string)
    ensures LastWith(parts, prefix).Some? ==> prefix <= LastWith(parts, prefix).value
  {
  }

  /** Each number is that of the last part that gives one, and what no part mentions stays. */
  predicate Decided(cfg: Settings, parts: seq<string>, r: Settings) {
    var pages, zstd := LastWith(parts, PAGES), LastWith(parts, ZSTD);
    LastWithHas(parts, PAGES);
    LastWithHas(parts, ZSTD);
    && (r.usePages <==> cfg.usePages || pages.Some?)
    && (r.useZstd <==> cfg.useZstd || zstd.Some?)
    && (r.xorWithOld <==> cfg.xorWithOld || XOR in parts)
    && (if pages.None? then r.pageSize == cfg.pageSize else Stoul(pages.value[|PAGES|..]) == Some(r.pageSize))
    && (if zstd.None? then r.zstdLevel == cfg.zstdLevel else Stoi(zstd.value[|ZSTD|..]) == Some(r.zstdLevel))
  }

  lemma LastWithMore(parts: seq<string>, last: string, prefix: string)
    ensures LastWith(parts + [last], prefix) == if prefix <= last then Some(last) else LastWith(parts, prefix)
  {
    assert (parts + [last])[..|parts|] == parts;
  }

  lemma DecidedMore(cfg: Settings, parts: seq<string>, mid: Settings, last: string)
    requires Decided(cfg, parts, mid) && Valid(last)
    ensures Part(mid, last).Ok? && Decided(cfg, parts + [last], Part(mid, last).value)
  {
    hide Stoul, Stoi, LastWith;
    PartFails(mid, last);
    LastWithMore(parts, last, PAGES);
    LastWithMore(parts, last, ZSTD);
    assert PAGES <= last ==> last[0] == 'p';
    assert ZSTD <= last ==> last[0] == 'z';
    assert XOR[0] == 'x';
    hide Valid;
  }

  /** What readable parts decide. */
  lemma {:induction false} ReadMeaning(cfg: Settings, parts: seq<string>)
    requires forall k :: 0 <= k < |parts| ==> Valid(parts[k])
    ensures Read(cfg, parts).Ok? && Decided(cfg, parts, Read(cfg, parts).value)
    decreases |parts|
  {
    if parts != [] {
      var front, last := parts[..|parts| - 1], parts[|parts| - 1];
      hide Valid, Decided, Part;
      ReadMeaning(cfg, front);
      ReadLast(cfg, front, last);
      DecidedMore(cfg, front, Read(cfg, front).value, last);
      assert parts == front + [last];
    }
  }

  // ------------------------------------------------------------ the default

  const DEFAULT_TEXT := "pages=4096;xor;zstd=1"
  const DEFAULT_MEANING := Settings(true, 4096, true, true, 1)

  lemma SmallNumbers()
    ensures Decimal(4096) == "4096" && Decimal(1) == "1"
  {
    assert Digits(4) == "4" && Digits(40) == "40" && Digits(409) == "409";
  }

  /** The setting the program comes with: how it is printed and how its text reads. */
  lemma DefaultSetting()
    ensures Printed(DEFAULT_MEANING) == DEFAULT_TEXT + ";"
    ensures Read(DEFAULTS, Parts(DEFAULT_TEXT)) == Ok(DEFAULT_MEANING)
  {
    SmallNumbers();
    assert Printed(DEFAULT_MEANING) == DEFAULT_TEXT + ";" by {
      hide Decimal;
    }
    SettingsRoundTrip(DEFAULT_MEANING);
    LastSemicolonOptional(DEFAULT_TEXT);
    hide Parts, Read, Printed;
  }
}
