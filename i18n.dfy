/** Messages as the bot builds them.  The localisation catalog (`Locale.t`) is not
    part of this model: a call `locale.t(key, **args)` is kept as the uninterpreted
    term `Tr(lang, key, args)`, so two messages are equal exactly when they were
    built from the same catalog key and arguments.  `str(int)` is modelled by
    `Decimal`, with `ParseDecimal` as its inverse. */
module I18n {
  import opened Wrappers

  type Lang = string

  /** The locale used where the source relies on the default `Locale('zh_cn')`. */
  const DEFAULT_LANG: Lang := "zh_cn"

  datatype Text =
    | Tr(lang: Lang, key: string, args: map<Arg, Val>)  // locale.t(key, **args)
    | Lit(s: string)                                    // a literal Python string
    | Join(parts: seq<Text>)                            // an f-string concatenation

  /** The keyword-argument names the module passes to the catalog, each named
      after the Python keyword it stands for (`cf_mod` is `CfMod`). */
  datatype Arg =
    // leaderboard lines
    | Rank | Status | Size | ClusterName | Version | Hits | Bytes | OwnerName
    // dashboard
    | Onlines | Sources | TotalFiles | TotalSize
    | RunningDays | RunningHours | RunningMinutes | RunningSeconds
    // cache statistics
    | CfMod | CfFile | CfFingerprint | MrProject | MrVersion | MrFile | CdnFile
    // cluster detail
    | ClusterId | Fullsize | Proxy | Stat | CreatedAt | DownTime | Bandwidth | Sponsor | SponsorUrl
    // data sources
    | Name | Count | LastUpdated | IsFromPlugin

  /** The values the source passes to the catalog as keyword arguments. */
  datatype Val =
    | Txt(text: Text)
    | Int(i: int)
    | Str(s: string)
    | Num(r: real)
    | Measure(amount: real, unit: string)  // f'{amount:.2f} {unit}' from size_convert
    | Time(seconds: real)                  // msg.ts2strftime(seconds)
    | Nil                                  // Python None

  /** A catalog message without arguments. */
  function T(lang: Lang, key: string): Text {
    Tr(lang, key, map[])
  }

  /** The keyword argument `name` of a catalog message, if it has one. */
  function ArgOf(t: Text, name: Arg): Option<Val> {
    if t.Tr? && name in t.args then Some(t.args[name]) else None
  }

  function OfStr(o: Option<string>): Val {
    if o.Some? then Str(o.value) else Nil
  }

  function OfInt(o: Option<int>): Val {
    if o.Some? then Int(o.value) else Nil
  }

  function OfNum(o: Option<real>): Val {
    if o.Some? then Num(o.value) else Nil
  }

  // ---------------------------------------------------------------------------
  // str(int)

  predicate IsDigit(c: char) {
    '0' <= c <= '9'
  }

  function DigitChar(d: nat): (c: char)
    requires d < 10
    ensures IsDigit(c) && (c as int) - ('0' as int) == d
  {
    (('0' as int) + d) as char
  }

  /** The decimal digits of a natural number, most significant first, without
      leading zeros. */
  function Digits(n: nat): (s: string)
    ensures |s| >= 1 && forall i :: 0 <= i < |s| ==> IsDigit(s[i])
  {
    if n < 10 then [DigitChar(n)] else Digits(n / 10) + [DigitChar(n % 10)]
  }

  /** Python's `str(n)` for an integer `n`. */
  function Decimal(n: int): string {
    if n < 0 then "-" + Digits(-n) else Digits(n)
  }

  function DigitsValue(s: string): nat
    requires forall i :: 0 <= i < |s| ==> IsDigit(s[i])
  {
    if s == [] then 0
    else
      assert IsDigit(s[|s| - 1]);
      DigitsValue(s[..|s| - 1]) * 10 + ((s[|s| - 1] as int) - ('0' as int))
  }

  /** Python's `int(s)` restricted to the strings `str` produces. */
  function ParseDecimal(s: string): Option<int> {
    if |s| >= 2 && s[0] == '-' && forall i :: 1 <= i < |s| ==> IsDigit(s[i]) then
      var magnitude: int := DigitsValue(s[1..]);
      Some(-magnitude)
    else if |s| >= 1 && forall i :: 0 <= i < |s| ==> IsDigit(s[i]) then
      Some(DigitsValue(s))
    else
      None
  }

  lemma {:induction false} DigitsRoundTrip(n: nat)
    ensures DigitsValue(Digits(n)) == n
  {
    var s := Digits(n);
    if n >= 10 {
      DigitsRoundTrip(n / 10);
      assert s[..|s| - 1] == Digits(n / 10);
    }
  }

  /** `int(str(n)) == n`: the decimal rendering loses nothing. */
  lemma DecimalRoundTrip(n: int)
    ensures ParseDecimal(Decimal(n)) == Some(n)
  {
    var s := Decimal(n);
    if n < 0 {
      var digits := Digits(-n);
      DigitsRoundTrip(-n);
      assert s == "-" + digits && s[1..] == digits;
      assert forall i :: 1 <= i < |s| ==> s[i] == digits[i - 1];
    } else {
      DigitsRoundTrip(n);
      assert IsDigit(s[0]);
    }
  }

  /** Distinct integers print differently. */
  lemma DecimalInjective(a: int, b: int)
    requires Decimal(a) == Decimal(b)
    ensures a == b
  {
    DecimalRoundTrip(a);
    DecimalRoundTrip(b);
  }
}
