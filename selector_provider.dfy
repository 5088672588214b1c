/**
 * The choice of the default NIO selector provider on Windows
 * (src/java.base/windows/classes/sun/nio/ch/DefaultSelectorProvider.java).
 *
 * The WEPoll provider is used from Windows 7 (os.version 6.1) on, unless the
 * jdk.nio.disableWEPoll kill switch is set or its construction fails; otherwise the
 * legacy WindowsSelectorProvider. The version test reads os.version the way the Java
 * library does: String.split("\\.") and Integer.parseInt, both modelled here.
 */
module SelectorProvider {
  import opened Wrappers

  const INT_MIN: int := -0x8000_0000
  const INT_MAX: int := 0x7FFF_FFFF

  // ---------------------------------------------------------------------------
  // Integer.parseInt(s), radix 10
  // ---------------------------------------------------------------------------

  predicate IsDigit(c: char) {
    '0' <= c <= '9'
  }

  predicate AllDigits(s: string) {
    forall i :: 0 <= i < |s| ==> IsDigit(s[i])
  }

  /** The value of a string of decimal digits, most significant first. */
  function DigitsValue(s: string): nat
    requires AllDigits(s)
  {
    if s == [] then 0
    else DigitsValue(s[..|s| - 1]) * 10 + (s[|s| - 1] as int - '0' as int)
  }

  /** Integer.parseInt(s): an optional '+' or '-' followed by at least one decimal digit,
      with a value that fits a Java int; None where Java throws NumberFormatException. */
  function ParseInt(s: string): (r: Option<int>)
    ensures r.Some? ==> INT_MIN <= r.value <= INT_MAX
    ensures s == [] ==> r.None?
  {
    var signed := |s| > 0 && (s[0] == '-' || s[0] == '+');
    var digits := if signed then s[1..] else s;
    if digits == [] || !AllDigits(digits) then None
    else
      var magnitude: int := DigitsValue(digits);
      var v := if signed && s[0] == '-' then -magnitude else magnitude;
      if INT_MIN <= v <= INT_MAX then Some(v) else None
  }

  /** The decimal digits of n, most significant first (Integer.toString for n >= 0). */
  function NatToDigits(n: nat): (s: string)
  {
    if n < 10 then [('0' as int + n) as char]
    else NatToDigits(n / 10) + [('0' as int + n % 10) as char]
  }

  /** Integer.toString(n). */
  function IntToString(n: int): string {
    if n < 0 then "-" + NatToDigits(-n) else NatToDigits(n)
  }

  lemma {:induction false} NatToDigitsValue(n: nat)
    ensures |NatToDigits(n)| > 0 && AllDigits(NatToDigits(n))
    ensures DigitsValue(NatToDigits(n)) == n
  {
    var s := NatToDigits(n);
    if n >= 10 {
      NatToDigitsValue(n / 10);
      assert s[..|s| - 1] == NatToDigits(n / 10);
    }
  }

  /** parseInt reads back every Java int that toString writes. */
  lemma ParseIntToString(n: int)
    requires INT_MIN <= n <= INT_MAX
    ensures ParseInt(IntToString(n)) == Some(n)
  {
    if n < 0 {
      NatToDigitsValue(-n);
      ParseIntOfDigits("-", NatToDigits(-n));
    } else {
      NatToDigitsValue(n);
      ParseIntOfDigits("", NatToDigits(n));
      assert "" + NatToDigits(n) == NatToDigits(n);
    }
  }

  /** parseInt on an optional sign and a non-empty run of digits: the signed value when it
      fits a Java int, a failure when it does not. Leading zeros and a '+' are accepted, so
      "07", "+7" and "-0" read as 7, 7 and 0. */
  lemma ParseIntOfDigits(sign: string, d: string)
    requires sign == "" || sign == "+" || sign == "-"
    requires d != [] && AllDigits(d)
    ensures ParseInt(sign + d) ==
      (var m: int := DigitsValue(d);
       var v := if sign == "-" then -m else m;
       if INT_MIN <= v <= INT_MAX then Some(v) else None)
  {
    var s := sign + d;
    if sign == [] {
      assert s == d && IsDigit(d[0]);
    } else {
      assert s[1..] == d;
    }
  }

  /** A digit string longer than ten digits with a nonzero first digit overflows a Java
      int, with either sign, so parseInt fails. */
  lemma ParseIntOverflows(sign: string, d: string)
    requires sign == "" || sign == "+" || sign == "-"
    requires |d| > 10 && AllDigits(d) && d[0] != '0'
    ensures ParseInt(sign + d) == None
  {
    ParseIntOfDigits(sign, d);
    DigitsValueAtLeast(d);
    Pow10Large(|d| - 1);
  }

  /** A digit string whose first digit is nonzero is worth at least 10^(|d| - 1). */
  lemma {:induction false} DigitsValueAtLeast(d: string)
    requires d != [] && AllDigits(d) && d[0] != '0'
    ensures DigitsValue(d) >= Pow10(|d| - 1)
  {
    if |d| > 1 {
      var init := d[..|d| - 1];
      assert init[0] == d[0];
      DigitsValueAtLeast(init);
    }
  }

  function Pow10(n: nat): (p: nat)
    ensures p >= 1
  {
    if n == 0 then 1 else 10 * Pow10(n - 1)
  }

  lemma {:induction false} Pow10Large(n: nat)
    requires n >= 10
    ensures Pow10(n) >= 10_000_000_000
  {
    if n > 10 {
      Pow10Large(n - 1);
    } else {
      assert Pow10(10) == 10_000_000_000 by {
        assert Pow10(2) == 100;
        assert Pow10(5) == 100_000;
      }
    }
  }

  /** parseInt rejects a string with a character that is neither a digit nor a leading sign,
      and a lone sign. */
  lemma ParseIntRejects(s: string, k: nat)
    requires k < |s| && !IsDigit(s[k])
    requires k > 0 || (s[0] != '-' && s[0] != '+') || |s| == 1
    ensures ParseInt(s) == None
  {
    if 0 < |s| && (s[0] == '-' || s[0] == '+') && k > 0 {
      assert s[1..][k - 1] == s[k];
    }
  }

  // ---------------------------------------------------------------------------
  // String.split("\\.")
  // ---------------------------------------------------------------------------

  /** The pieces of s between the dots, empty pieces included: one more than there are
      dots, none of them containing a dot. */
  function Fields(s: string): (fs: seq<string>)
    ensures |fs| >= 1
    ensures forall i :: 0 <= i < |fs| ==> '.' !in fs[i]
  {
    if s == [] then [[]]
    else
      var rest := Fields(s[1..]);
      if s[0] == '.' then [[]] + rest
      else [[s[0]] + rest[0]] + rest[1..]
  }

  /** The list without its trailing empty strings. */
  function DropTrailingEmpty(parts: seq<string>): (r: seq<string>)
    ensures r <= parts
    ensures r == [] || r[|r| - 1] != []
    ensures forall i :: |r| <= i < |parts| ==> parts[i] == []
  {
    if parts == [] then []
    else if parts[|parts| - 1] == [] then DropTrailingEmpty(parts[..|parts| - 1])
    else parts
  }

  /** String.split("\\.") with its default limit: the string itself when it has no dot,
      otherwise the dot-separated pieces less the trailing empty ones. */
  function Split(s: string): (parts: seq<string>)
    ensures forall i :: 0 <= i < |parts| ==> '.' !in parts[i]
    ensures '.' in s ==> parts == [] || parts[|parts| - 1] != []
    ensures '.' !in s ==> parts == [s]
  {
    if '.' !in s then [s] else DropTrailingEmpty(Fields(s))
  }

  /** The pieces joined again with dots. */
  function Join(parts: seq<string>): string
    requires |parts| > 0
  {
    if |parts| == 1 then parts[0] else parts[0] + "." + Join(parts[1..])
  }

  lemma {:induction false} FieldsOfDotless(p: string)
    requires '.' !in p
    ensures Fields(p) == [p]
  {
    if p != [] {
      FieldsOfDotless(p[1..]);
      assert [p[0]] + p[1..] == p;
    }
  }

  lemma {:induction false} FieldsOfPiece(p: string, rest: string)
    requires '.' !in p
    ensures Fields(p + "." + rest) == [p] + Fields(rest)
  {
    if p == [] {
      assert p + "." + rest == ['.'] + rest;
      assert (['.'] + rest)[1..] == rest;
    } else {
      FieldsOfPiece(p[1..], rest);
      assert (p + "." + rest)[1..] == p[1..] + "." + rest;
      assert [p[0]] + p[1..] == p;
    }
  }

  lemma {:induction false} FieldsOfJoin(parts: seq<string>)
    requires |parts| > 0
    requires forall i :: 0 <= i < |parts| ==> '.' !in parts[i]
    ensures Fields(Join(parts)) == parts
  {
    if |parts| == 1 {
      FieldsOfDotless(parts[0]);
    } else {
      FieldsOfJoin(parts[1..]);
      FieldsOfPiece(parts[0], Join(parts[1..]));
    }
  }

  /** Joining the fields with dots gives the string back: with FieldsOfJoin, Fields and
      Join are inverse to each other. */
  lemma {:induction false} JoinOfFields(s: string)
    ensures Join(Fields(s)) == s
  {
    if s != [] {
      var rest := Fields(s[1..]);
      JoinOfFields(s[1..]);
      if s[0] == '.' {
        assert Join([[]] + rest) == [] + "." + Join(rest);
        assert s == "." + s[1..];
      } else {
        var fs := [[s[0]] + rest[0]] + rest[1..];
        if |rest| == 1 {
          assert Join(fs) == [s[0]] + rest[0];
        } else {
          assert Join(rest) == rest[0] + "." + Join(rest[1..]);
          assert fs[1..] == rest[1..];
          assert Join(fs) == [s[0]] + rest[0] + "." + Join(rest[1..]);
        }
        assert s == [s[0]] + s[1..];
      }
    }
  }

  lemma {:induction false} DropTrailingEmptyKeeps(xs: seq<string>, ys: seq<string>)
    requires xs != [] && xs[|xs| - 1] != []
    ensures DropTrailingEmpty(xs + ys) == xs + DropTrailingEmpty(ys)
  {
    if ys != [] {
      if ys[|ys| - 1] == [] {
        assert (xs + ys)[..|xs + ys| - 1] == xs + ys[..|ys| - 1];
        DropTrailingEmptyKeeps(xs, ys[..|ys| - 1]);
      }
    } else {
      assert xs + ys == xs;
    }
  }

  /** Splitting undoes joining, for dot-free pieces whose last one is not empty (or a
      single piece, which split returns whole). */
  lemma SplitJoin(parts: seq<string>)
    requires |parts| > 0
    requires forall i :: 0 <= i < |parts| ==> '.' !in parts[i]
    requires |parts| == 1 || parts[|parts| - 1] != []
    ensures Split(Join(parts)) == parts
  {
    if |parts| > 1 {
      assert Join(parts)[|parts[0]|] == '.';
      FieldsOfJoin(parts);
      DropTrailingEmptyKeeps(parts, []);
      assert parts + [] == parts;
    }
  }

  // ---------------------------------------------------------------------------
  // isWin7OrLater
  // ---------------------------------------------------------------------------

  /** Windows 7 is version 6.1; Vista is 6.0. */
  const WINDOWS_7: (int, int) := (6, 1)

  /** (major, minor) is at or above `than`, comparing the major numbers first. */
  predicate AtLeast(version: (int, int), than: (int, int)) {
    version.0 > than.0 || (version.0 == than.0 && version.1 >= than.1)
  }

  /** The (major, minor) pair isWin7OrLater reads from os.version: the first two
      dot-separated components, each 0 when absent; None when the property is null or
      empty or when one of those components is not a Java int. */
  function VersionOf(osVersion: Option<string>): Option<(int, int)> {
    if osVersion.None? || osVersion.value == [] then None
    else
      var parts := Split(osVersion.value);
      var major := if |parts| > 0 then ParseInt(parts[0]) else Some(0);
      var minor := if |parts| > 1 then ParseInt(parts[1]) else Some(0);
      if major.None? || minor.None? then None
      else Some((major.value, minor.value))
  }

  /** The outcome of isWin7OrLater for a given os.version property. */
  predicate Win7OrLater(osVersion: Option<string>) {
    VersionOf(osVersion).Some? && AtLeast(VersionOf(osVersion).value, WINDOWS_7)
  }

  /** isWin7OrLater: parses the components into the locals major and minor, returning
      false as soon as one fails, then compares with 6.1. */
  method IsWin7OrLater(osVersion: Option<string>) returns (r: bool)
    ensures r == Win7OrLater(osVersion)
  {
    if osVersion.None? || osVersion.value == [] {
      return false;
    }
    var v := osVersion.value;
    var major, minor := 0, 0;
    var parts := Split(v);
    if |parts| > 0 {
      var parsed := ParseInt(parts[0]);
      if parsed.None? {
        return false;
      }
      major := parsed.value;
    }
    if |parts| > 1 {
      var parsed := ParseInt(parts[1]);
      if parsed.None? {
        return false;
      }
      minor := parsed.value;
    }
    if major > 6 {
      return true;
    }
    if major == 6 {
      return minor >= 1;
    }
    return false;
  }

  /** The version test is monotone: any version at or above one that passes also passes. */
  lemma AtLeastMonotone(version: (int, int), higher: (int, int))
    requires AtLeast(version, WINDOWS_7) && AtLeast(higher, version)
    ensures AtLeast(higher, WINDOWS_7)
  {
  }

  /** Written major.minor in decimal, every pair of Java ints is read back exactly, so the
      test is the lexicographic comparison with 6.1. */
  lemma Win7OrLaterOfDecimal(major: int, minor: int)
    requires INT_MIN <= major <= INT_MAX && INT_MIN <= minor <= INT_MAX
    ensures Win7OrLater(Some(IntToString(major) + "." + IntToString(minor))) <==> AtLeast((major, minor), WINDOWS_7)
  {
    var a, b := IntToString(major), IntToString(minor);
    DecimalIsDotless(major);
    DecimalIsDotless(minor);
    assert Join([a, b]) == a + "." + b by {
      assert [a, b][1..] == [b];
    }
    SplitJoin([a, b]);
    ParseIntToString(major);
    ParseIntToString(minor);
  }

  lemma DecimalIsDotless(n: int)
    ensures '.' !in IntToString(n) && IntToString(n) != []
  {
    NatToDigitsValue(if n < 0 then -n else n);
    var s := IntToString(n);
    forall i | 0 <= i < |s|
      ensures s[i] != '.'
    {
      if n < 0 && i > 0 {
        assert s[i] == NatToDigits(-n)[i - 1];
      }
    }
  }

  /** A single component is the major version and the minor version is 0: "6" fails and
      "7" passes. */
  lemma MissingMinorIsZero(component: string)
    requires component != [] && '.' !in component
    ensures Win7OrLater(Some(component)) <==> ParseInt(component).Some? && ParseInt(component).value > 6
  {
  }

  /** Only the first two components are read: whatever follows the second dot is ignored,
      so "6.1.x" passes like "6.1". */
  lemma LaterComponentsIgnored(major: string, minor: string, rest: string)
    requires '.' !in major && '.' !in minor && minor != []
    ensures Win7OrLater(Some(major + "." + minor + "." + rest)) == Win7OrLater(Some(major + "." + minor))
  {
    var long, short := major + "." + minor + "." + rest, major + "." + minor;
    var parts := Split(long);
    SplitOfLonger(major, minor, rest);
    assert |parts| >= 2 && parts[0] == major && parts[1] == minor;
    SplitJoin([major, minor]);
    assert Join([major, minor]) == short by {
      assert [major, minor][1..] == [minor];
    }
    assert long != [] && short != [];
  }

  lemma SplitOfLonger(major: string, minor: string, rest: string)
    requires '.' !in major && '.' !in minor && minor != []
    ensures Split(major + "." + minor + "." + rest) == [major, minor] + DropTrailingEmpty(Fields(rest))
  {
    var v := major + "." + minor + "." + rest;
    assert v == major + "." + (minor + "." + rest);
    FieldsOfPiece(major, minor + "." + rest);
    FieldsOfPiece(minor, rest);
    assert Fields(v) == [major, minor] + Fields(rest);
    DropTrailingEmptyKeeps([major, minor], Fields(rest));
    assert v[|major|] == '.';
  }

  /** A null or empty property and an unparsable major or minor component all mean false. */
  lemma FailuresMeanFalse(osVersion: Option<string>)
    requires osVersion.None? || osVersion.value == []
      || (var parts := Split(osVersion.value);
          (|parts| > 0 && ParseInt(parts[0]).None?) || (|parts| > 1 && ParseInt(parts[1]).None?))
    ensures !Win7OrLater(osVersion)
  {
  }

  /** Vista, "6.0", fails. */
  lemma SampleVista()
    ensures !Win7OrLater(Some("6.0"))
  {
    assert IntToString(6) + "." + IntToString(0) == "6.0";
    Win7OrLaterOfDecimal(6, 0);
  }

  /** Windows 7, "6.1", passes. */
  lemma SampleWindows7()
    ensures Win7OrLater(Some("6.1"))
  {
    assert IntToString(6) + "." + IntToString(1) == "6.1";
    Win7OrLaterOfDecimal(6, 1);
  }

  /** Windows 10, "10.0", passes. */
  lemma SampleWindows10()
    ensures Win7OrLater(Some("10.0"))
  {
    assert IntToString(10) + "." + IntToString(0) == "10.0";
    Win7OrLaterOfDecimal(10, 0);
  }

  /** "5.9" fails: the major version decides first. */
  lemma SampleMajorFirst()
    ensures !Win7OrLater(Some("5.9"))
  {
    assert IntToString(5) + "." + IntToString(9) == "5.9";
    Win7OrLaterOfDecimal(5, 9);
  }

  /** A minor component that parseInt rejects makes the result false, whatever the major
      component says. */
  lemma UnparsableMinorMeansFalse(major: string, minor: string)
    requires '.' !in major && '.' !in minor && minor != []
    requires ParseInt(minor).None?
    ensures !Win7OrLater(Some(major + "." + minor))
  {
    SplitJoin([major, minor]);
    assert Join([major, minor]) == major + "." + minor by {
      assert [major, minor][1..] == [minor];
    }
    FailuresMeanFalse(Some(major + "." + minor));
  }

  /** A minor component that overflows a Java int, such as the "99999999999" of
      "7.99999999999", makes parseInt throw, so the result is false whatever the major
      component says. */
  lemma OverflowingMinorMeansFalse(major: string, sign: string, digits: string)
    requires '.' !in major
    requires sign == "" || sign == "+" || sign == "-"
    requires |digits| > 10 && AllDigits(digits) && digits[0] != '0'
    ensures !Win7OrLater(Some(major + "." + (sign + digits)))
  {
    ParseIntOverflows(sign, digits);
    var minor := sign + digits;
    assert '.' !in minor by {
      forall i | 0 <= i < |minor|
        ensures minor[i] != '.'
      {
        if i >= |sign| {
          assert minor[i] == digits[i - |sign|];
        }
      }
    }
    UnparsableMinorMeansFalse(major, minor);
  }

  /** split drops a trailing empty piece, so "7." reads as major 7 with the minor
      version 0 and passes. */
  lemma SampleTrailingDot()
    ensures Win7OrLater(Some("7."))
  {
    FieldsOfDotless("");
    FieldsOfPiece("7", "");
    assert "7" + "." + "" == "7.";
    assert Split("7.") == ["7"] by {
      assert "7."[1] == '.';
      assert ["7", ""][..1] == ["7"];
    }
    assert ParseInt("7") == Some(7);
  }

  /** Likewise "7..": both trailing empty pieces are dropped and it passes. */
  lemma SampleTrailingDots()
    ensures Win7OrLater(Some("7.."))
  {
    FieldsOfDotless("");
    FieldsOfPiece("", "");
    assert "" + "." + "" == ".";
    FieldsOfPiece("7", ".");
    assert "7" + "." + "." == "7..";
    assert Split("7..") == ["7"] by {
      assert Fields(".") == ["", ""];
      assert Fields("7..") == ["7", "", ""];
      assert "7.."[1] == '.';
      assert ["7", "", ""][..2] == ["7", ""];
      assert ["7", ""][..1] == ["7"];
    }
    assert ParseInt("7") == Some(7);
  }

  /** An empty minor component between two dots is read: "7..1" fails, because
      parseInt("") throws, although "7." and "7.." pass. */
  lemma SampleEmptyMinor()
    ensures !Win7OrLater(Some("7..1"))
  {
    SplitJoin(["7", "", "1"]);
    assert Join(["7", "", "1"]) == "7..1" by {
      assert ["7", "", "1"][1..] == ["", "1"];
      assert ["", "1"][1..] == ["1"];
    }
    FailuresMeanFalse(Some("7..1"));
  }

  /** Sample readings of os.version without a minor component: "6" fails, "7" passes. */
  lemma SamplesWithoutMinor()
    ensures !Win7OrLater(Some("6")) && Win7OrLater(Some("7"))
  {
    MissingMinorIsZero("6");
    MissingMinorIsZero("7");
    assert ParseInt("6") == Some(6) && ParseInt("7") == Some(7);
  }

  // ---------------------------------------------------------------------------
  // The provider
  // ---------------------------------------------------------------------------

  datatype ProviderKind = WEPollSelectorProvider | WindowsSelectorProvider

  /** A SelectorProviderImpl object. */
  class SelectorProviderImpl {
    const kind: ProviderKind

    constructor (kind: ProviderKind)
      ensures this.kind == kind
    {
      this.kind := kind;
    }
  }

  /** The privileged action of the static initialiser: WEPoll when the kill switch is off,
      the version is 6.1 or later and its constructor does not throw; otherwise the legacy
      provider. */
  function ChosenProvider(disableWEPoll: bool, osVersion: Option<string>, wepollConstructs: bool): (k: ProviderKind)
    ensures k == WEPollSelectorProvider <==> !disableWEPoll && Win7OrLater(osVersion) && wepollConstructs
    ensures k == WindowsSelectorProvider <==> disableWEPoll || !Win7OrLater(osVersion) || !wepollConstructs
  {
    if !disableWEPoll && Win7OrLater(osVersion) && wepollConstructs then WEPollSelectorProvider
    else WindowsSelectorProvider
  }

  /** The class DefaultSelectorProvider: its static final INSTANCE, fixed by the static
      initialiser from the jdk.nio.disableWEPoll switch, the os.version property and
      whether new WEPollSelectorProvider() succeeds. */
  class DefaultSelectorProvider {
    // The inputs of the static initialiser, kept only to state what INSTANCE is.
    ghost const disableWEPoll: bool
    ghost const osVersion: Option<string>
    ghost const wepollConstructs: bool
    const instance: SelectorProviderImpl

    /** INSTANCE is the provider the initialiser's choice names. */
    ghost predicate Valid() {
      instance.kind == ChosenProvider(disableWEPoll, osVersion, wepollConstructs)
    }

    /** The static initialiser. */
    constructor Initialize(disableWEPoll: bool, osVersion: Option<string>, wepollConstructs: bool)
      ensures this.disableWEPoll == disableWEPoll && this.osVersion == osVersion
      ensures this.wepollConstructs == wepollConstructs
      ensures fresh(instance) && Valid()
      ensures instance.kind == ChosenProvider(disableWEPoll, osVersion, wepollConstructs)
    {
      this.disableWEPoll := disableWEPoll;
      this.osVersion := osVersion;
      this.wepollConstructs := wepollConstructs;
      var tryWEPoll := false;
      if !disableWEPoll {
        tryWEPoll := IsWin7OrLater(osVersion);
      }
      var provider: SelectorProviderImpl;
      if tryWEPoll && wepollConstructs {
        provider := new SelectorProviderImpl(WEPollSelectorProvider);
      } else {
        provider := new SelectorProviderImpl(WindowsSelectorProvider);
      }
      instance := provider;
    }

    /** get(): the one instance the initialiser chose, the same object on every call. */
    function Get(): (p: SelectorProviderImpl)
      requires Valid()
      ensures p == instance
      ensures p.kind == ChosenProvider(disableWEPoll, osVersion, wepollConstructs)
    {
      instance
    }
  }
}
