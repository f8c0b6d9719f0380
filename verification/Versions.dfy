/** The order of versions: pkg/audit/domain/versions.go and its sorted list in pkg/audit/domain/audit.go, and the
    second comparison in pkg/doctor/domain/version.go. */
module Versions {
  import opened Strings

  /** Go's int has 64 bits. */
  const MAX_INT := 0x7FFF_FFFF_FFFF_FFFF
  const TWO_64 := 0x1_0000_0000_0000_0000

  function Wrapped(n: int): int {
    var m := n % TWO_64;
    if m > MAX_INT then m - TWO_64 else m
  }

  predicate IsDigit(c: char) {
    '0' <= c <= '9'
  }

  predicate AllDigits(s: string) {
    forall i :: 0 <= i < |s| ==> IsDigit(s[i])
  }

  /** The digits a string starts with. */
  function DigitPrefix(s: string): string {
    if s != "" && IsDigit(s[0]) then [s[0]] + DigitPrefix(s[1..]) else ""
  }

  lemma {:induction false} DigitPrefixSplits(s: string)
    ensures DigitPrefix(s) <= s && AllDigits(DigitPrefix(s))
    ensures |DigitPrefix(s)| < |s| ==> !IsDigit(s[|DigitPrefix(s)|])
  {
    if s != "" && IsDigit(s[0]) {
      DigitPrefixSplits(s[1..]);
      assert s == [s[0]] + s[1..];
    }
  }

  lemma {:induction false} DigitPrefixIs(digits: string, rest: string)
    requires AllDigits(digits) && (rest == "" || !IsDigit(rest[0]))
    ensures DigitPrefix(digits + rest) == digits
  {
    if digits == "" {
      assert digits + rest == rest;
    } else {
      assert (digits + rest)[1..] == digits[1..] + rest;
      DigitPrefixIs(digits[1..], rest);
    }
  }

  /** The number a string of digits stands for. */
  function Number(s: string): int {
    if s == "" then 0 else Number(s[..|s| - 1]) * 10 + (s[|s| - 1] as int - '0' as int)
  }

  function Pow10(n: nat): nat {
    if n == 0 then 1 else 10 * Pow10(n - 1)
  }

  /** A string of n digits is a number below the n-th power of ten, and one that does not start with 0 is not below
      the power before. */
  lemma {:induction false} NumberSize(s: string)
    requires AllDigits(s)
    ensures 0 <= Number(s) < Pow10(|s|)
    ensures s != "" && s[0] != '0' ==> Pow10(|s| - 1) <= Number(s)
  {
    if s != "" {
      NumberSize(s[..|s| - 1]);
    }
  }

  lemma {:induction false} NumberFirst(s: string)
    requires s != "" && AllDigits(s)
    ensures Number(s) == (s[0] as int - '0' as int) * Pow10(|s| - 1) + Number(s[1..])
  {
    var n := |s| - 1;
    if n == 0 {
      assert s[..0] == "" && s[1..] == "" && Number("") == 0;
    } else {
      NumberFirst(s[..n]);
      assert s[1..][..n - 1] == s[..n][1..];
      TenTimes(s[0] as int - '0' as int, Pow10(n - 1), Number(s[..n][1..]));
    }
  }

  lemma TenTimes(d: int, p: int, x: int)
    ensures 10 * (d * p + x) == d * (10 * p) + 10 * x
  {
  }

  /** Of two numbers without leading zeros the one with more digits is larger, and with equally many the first digit
      that differs decides. */
  lemma {:induction false} NumberOrder(a: string, b: string)
    requires AllDigits(a) && AllDigits(b) && a != "" && b != ""
    ensures |a| < |b| && b[0] != '0' ==> Number(a) < Number(b)
    ensures |a| == |b| ==> (Number(a) < Number(b) <==> Before(a, b))
    decreases |a|
  {
    NumberSize(a);
    NumberSize(b);
    if |a| < |b| {
      PowGrows(|a|, |b| - 1);
    } else if |a| == |b| {
      NumberFirst(a);
      NumberFirst(b);
      NumberSize(a[1..]);
      NumberSize(b[1..]);
      if |a| > 1 {
        NumberOrder(a[1..], b[1..]);
      } else {
        assert a[1..] == "" && b[1..] == "";
      }
      DigitDecides(a[0] as int - '0' as int, b[0] as int - '0' as int, Pow10(|a| - 1), Number(a[1..]), Number(b[1..]));
    }
  }

  lemma DigitDecides(x: int, y: int, p: int, s: int, t: int)
    requires 0 <= s < p && 0 <= t < p
    ensures x < y ==> x * p + s < y * p + t
    ensures x > y ==> x * p + s > y * p + t
  {
    if x < y {
      TimesMore(x, y - x, p);
    }
    if x > y {
      TimesMore(y, x - y, p);
    }
  }

  lemma {:induction false} TimesMore(x: int, d: nat, p: nat)
    requires d >= 1
    ensures (x + d) * p >= x * p + p
    decreases d
  {
    if d > 1 {
      TimesMore(x, d - 1, p);
      assert (x + d) * p == (x + (d - 1)) * p + p;
    } else {
      assert (x + 1) * p == x * p + p;
    }
  }

  lemma {:induction false} PowGrows(m: nat, n: nat)
    requires m <= n
    ensures Pow10(m) <= Pow10(n)
    decreases n - m
  {
    if m < n {
      PowGrows(m + 1, n);
    }
  }

  /** Wrapping leaves a number that fits 64 bits alone, and takes any other to the one that differs from it by a
      multiple of the 64th power of two. */
  lemma WrappedMeans(n: int)
    ensures -0x8000_0000_0000_0000 <= Wrapped(n) <= 0x7FFF_FFFF_FFFF_FFFF
    ensures (n - Wrapped(n)) % 0x1_0000_0000_0000_0000 == 0
    ensures -0x8000_0000_0000_0000 <= n <= 0x7FFF_FFFF_FFFF_FFFF ==> Wrapped(n) == n
  {
    var q := n / 0x1_0000_0000_0000_0000;
    var m := n % 0x1_0000_0000_0000_0000;
    assert n == q * 0x1_0000_0000_0000_0000 + m;
    if m > MAX_INT {
      assert n - Wrapped(n) == (q + 1) * 0x1_0000_0000_0000_0000;
      ModShift(0, -(q + 1));
    } else {
      assert n - Wrapped(n) == q * 0x1_0000_0000_0000_0000;
      ModShift(0, -q);
    }
  }

  // ----- the order

  /** A component, zero when it is missing. */
  function At(v: seq<int>, i: nat): int {
    if i < |v| then v[i] else 0
  }

  /** v is smaller than w at the first component where they differ. */
  ghost predicate SmallerAt(v: seq<int>, w: seq<int>, i: nat) {
    At(v, i) < At(w, i) && forall j: nat :: j < i ==> At(v, j) == At(w, j)
  }

  ghost predicate Smaller(v: seq<int>, w: seq<int>) {
    exists i: nat :: SmallerAt(v, w, i)
  }

  ghost predicate SameVersion(v: seq<int>, w: seq<int>) {
    forall i: nat :: At(v, i) == At(w, i)
  }

  /** The comparison both copies make: over the components, the shorter padded with zeros. */
  function CompareFrom(v: seq<int>, w: seq<int>, i: nat): int
    decreases |v| + |w| - i
  {
    if i >= |v| && i >= |w| then 0
    else if At(v, i) < At(w, i) then -1
    else if At(v, i) > At(w, i) then 1
    else CompareFrom(v, w, i + 1)
  }

  function Compare(v: seq<int>, w: seq<int>): int {
    CompareFrom(v, w, 0)
  }

  lemma {:induction false} CompareFromMeans(v: seq<int>, w: seq<int>, i: nat)
    requires forall j: nat :: j < i ==> At(v, j) == At(w, j)
    ensures CompareFrom(v, w, i) in {-1, 0, 1}
    ensures CompareFrom(v, w, i) == -1 ==> Smaller(v, w)
    ensures CompareFrom(v, w, i) == 1 ==> Smaller(w, v)
    ensures CompareFrom(v, w, i) == 0 ==> SameVersion(v, w)
    decreases |v| + |w| - i
  {
    if i < |v| || i < |w| {
      if At(v, i) < At(w, i) {
        assert SmallerAt(v, w, i);
      } else if At(v, i) > At(w, i) {
        assert SmallerAt(w, v, i);
      } else {
        CompareFromMeans(v, w, i + 1);
      }
    }
  }

  lemma SmallerExcludes(v: seq<int>, w: seq<int>)
    requires Smaller(v, w)
    ensures !Smaller(w, v) && !SameVersion(v, w)
  {
    var i: nat :| SmallerAt(v, w, i);
    forall j: nat ensures !SmallerAt(w, v, j) {
      assert i < j || j < i || i == j;
    }
  }

  /** The comparison is that of the component lists continued with zeros. */
  lemma CompareMeans(v: seq<int>, w: seq<int>)
    ensures Compare(v, w) == -1 <==> Smaller(v, w)
    ensures Compare(v, w) == 1 <==> Smaller(w, v)
    ensures Compare(v, w) == 0 <==> SameVersion(v, w)
  {
    CompareFromMeans(v, w, 0);
    if Smaller(v, w) {
      SmallerExcludes(v, w);
    }
    if Smaller(w, v) {
      SmallerExcludes(w, v);
      assert SameVersion(v, w) ==> SameVersion(w, v);
    }
  }

  /** Swapping the sides changes the sign. */
  lemma CompareAntisymmetric(v: seq<int>, w: seq<int>)
    ensures Compare(v, w) == -Compare(w, v)
  {
    CompareMeans(v, w);
    CompareMeans(w, v);
    CompareFromMeans(v, w, 0);
    CompareFromMeans(w, v, 0);
    assert SameVersion(v, w) <==> SameVersion(w, v);
  }

  /** At most and at most gives at most. */
  lemma CompareTransitive(u: seq<int>, v: seq<int>, w: seq<int>)
    requires Compare(u, v) <= 0 && Compare(v, w) <= 0
    ensures Compare(u, w) <= 0
    ensures Compare(u, v) < 0 || Compare(v, w) < 0 ==> Compare(u, w) < 0
  {
    CompareFromMeans(u, v, 0);
    CompareFromMeans(v, w, 0);
    CompareMeans(u, w);
    if Compare(u, v) == 0 && Compare(v, w) == 0 {
      assert SameVersion(u, w);
    } else if Compare(u, v) == 0 {
      var j: nat :| SmallerAt(v, w, j);
      assert SmallerAt(u, w, j);
    } else if Compare(v, w) == 0 {
      var i: nat :| SmallerAt(u, v, i);
      assert SmallerAt(u, w, i);
    } else {
      var i: nat :| SmallerAt(u, v, i);
      var j: nat :| SmallerAt(v, w, j);
      assert SmallerAt(u, w, if i < j then i else j);
    }
  }

  function Zeros(n: nat): (zeros: seq<int>)
    ensures |zeros| == n && forall i :: 0 <= i < n ==> zeros[i] == 0
  {
    seq(n, _ => 0)
  }

  /** Trailing zero components change nothing. */
  lemma CompareIgnoresZeros(v: seq<int>, w: seq<int>, zeros: nat)
    ensures Compare(v + Zeros(zeros), w) == Compare(v, w)
  {
    var longer := v + Zeros(zeros);
    assert forall i: nat :: At(longer, i) == At(v, i);
    CompareMeans(longer, w);
    CompareMeans(v, w);
    CompareFromMeans(v, w, 0);
    if Smaller(v, w) {
      var i: nat :| SmallerAt(v, w, i);
      assert SmallerAt(longer, w, i);
    }
    if Smaller(w, v) {
      var i: nat :| SmallerAt(w, v, i);
      assert SmallerAt(w, longer, i);
    }
  }

  // ----- the two parsers

  /** The numbers of a dotted list at the start of a string: digits, then as long as a dot and digits follow. */
  function DottedNumbers(s: string): seq<int>
    decreases |s|
  {
    var digits := DigitPrefix(s);
    DigitPrefixSplits(s);
    if digits == "" then []
    else
      var rest := s[|digits|..];
      [Wrapped(Number(digits))] + if rest != "" && rest[0] == '.' then DottedNumbers(rest[1..]) else []
  }

  function DropPrefix(s: string, prefix: string): string {
    if prefix <= s then s[|prefix|..] else s
  }

  /** versionComponents of the audit: an optional v or V, an optional go, a dotted list of numbers; the sums wrap. */
  function AuditComponents(value: string): seq<int> {
    var s := TrimSpace(value);
    DottedNumbers(DropPrefix(if s != "" && (s[0] == 'v' || s[0] == 'V') then s[1..] else s, "go"))
  }

  /** parseVersionComponents of the doctor: the parts between dots, up to the first that does not start with a
      number that fits an int. IsDigit here is Go's for all scripts; Atoi reads ASCII digits only, so a part
      whose digits are not all ASCII ends the list, as an empty one does. */
  function DoctorNumbers(parts: seq<string>, digit: char -> bool): seq<int> {
    if parts == [] || !GivesNumber(parts[0], digit) then []
    else [Number(ScriptPrefix(parts[0], digit))] + DoctorNumbers(parts[1..], digit)
  }

  predicate GivesNumber(p: string, digit: char -> bool) {
    var digits := ScriptPrefix(p, digit);
    digits != "" && AllDigits(digits) && Number(digits) <= MAX_INT
  }

  function ScriptPrefix(s: string, digit: char -> bool): string {
    if s != "" && (IsDigit(s[0]) || digit(s[0])) then [s[0]] + ScriptPrefix(s[1..], digit) else ""
  }

  function DoctorComponents(value: string, digit: char -> bool): seq<int> {
    DoctorNumbers(Split(DropPrefix(DropPrefix(TrimSpace(value), "v"), "go"), '.'), digit)
  }

  // ----- when the two parsers agree

  /** The parts between dots on which both parsers give the same numbers. A part without a digit ends both lists.
      Otherwise its digits must be all ASCII and fit an int; and when something else follows them, which ends the
      audit's list, the next part must give the doctor no number. */
  predicate AgreeOn(parts: seq<string>, digit: char -> bool) {
    parts == [] ||
    var digits, rest := DigitPrefix(parts[0]), parts[1..];
    digits == "" ||
    (&& ScriptPrefix(parts[0], digit) == digits && Number(digits) <= MAX_INT
     && if digits == parts[0] then AgreeOn(rest, digit) else rest == [] || !GivesNumber(rest[0], digit))
  }

  lemma {:induction false} DigitPrefixOf(p: string, rest: string)
    requires rest == "" || !IsDigit(rest[0])
    ensures DigitPrefix(p + rest) == DigitPrefix(p)
  {
    if p == "" {
      assert p + rest == rest;
    } else {
      assert (p + rest)[1..] == p[1..] + rest;
      DigitPrefixOf(p[1..], rest);
    }
  }

  /** The first part of a joined list, and what follows it. */
  lemma DottedHead(p: string, rest: string)
    requires '.' !in p && (rest == "" || rest[0] == '.')
    ensures DottedNumbers(p + rest) ==
      var digits := DigitPrefix(p);
      if digits == "" then []
      else [Wrapped(Number(digits))] + if digits == p && rest != "" then DottedNumbers(rest[1..]) else []
  {
    var digits := DigitPrefix(p);
    DigitPrefixOf(p, rest);
    DigitPrefixSplits(p);
    assert (p + rest)[|digits|..] == p[|digits|..] + rest;
    if digits == p {
      assert p[|digits|..] + rest == rest;
    } else {
      assert (p[|digits|..] + rest)[0] == p[|digits|];
    }
  }

  lemma {:induction false} ScriptPrefixStarts(p: string, digit: char -> bool)
    ensures DigitPrefix(p) <= ScriptPrefix(p, digit)
    ensures AllDigits(ScriptPrefix(p, digit)) ==> ScriptPrefix(p, digit) == DigitPrefix(p)
  {
    if p != "" && (IsDigit(p[0]) || digit(p[0])) {
      var rest := ScriptPrefix(p[1..], digit);
      ScriptPrefixStarts(p[1..], digit);
      assert ScriptPrefix(p, digit) == [p[0]] + rest;
      if AllDigits([p[0]] + rest) {
        assert forall i :: 0 <= i < |rest| ==> rest[i] == ([p[0]] + rest)[i + 1];
        assert IsDigit(([p[0]] + rest)[0]);
      }
    }
  }

  lemma {:induction false} NotNegative(s: string)
    requires AllDigits(s)
    ensures Number(s) >= 0
  {
    if s != "" {
      NotNegative(s[..|s| - 1]);
    }
  }

  /** One part: the doctor reads a number exactly where the audit does, if its digits are ASCII and fit. */
  lemma PartNumbers(p: string, digit: char -> bool)
    ensures GivesNumber(p, digit) <==>
      DigitPrefix(p) != "" && ScriptPrefix(p, digit) == DigitPrefix(p) && Number(DigitPrefix(p)) <= MAX_INT
    ensures GivesNumber(p, digit) ==> Wrapped(Number(DigitPrefix(p))) == Number(ScriptPrefix(p, digit))
  {
    ScriptPrefixStarts(p, digit);
    DigitPrefixSplits(p);
    NotNegative(DigitPrefix(p));
  }

  lemma JoinHead(parts: seq<string>)
    requires parts != []
    ensures Join(parts, ".") == parts[0] + if |parts| == 1 then "" else "." + Join(parts[1..], ".")
  {
    if |parts| == 1 {
      assert parts[0] + "" == parts[0];
    } else {
      assert parts[0] + "." + Join(parts[1..], ".") == parts[0] + ("." + Join(parts[1..], "."));
    }
  }

  lemma {:induction false} PartsAgreeIff(parts: seq<string>, digit: char -> bool)
    requires parts != [] && forall i :: 0 <= i < |parts| ==> '.' !in parts[i]
    ensures DottedNumbers(Join(parts, ".")) == DoctorNumbers(parts, digit) <==> AgreeOn(parts, digit)
    decreases |parts|
  {
    var p, tail := parts[0], parts[1..];
    var rest := if |parts| == 1 then "" else "." + Join(tail, ".");
    JoinHead(parts);
    DottedHead(p, rest);
    PartNumbers(p, digit);
    assert forall i :: 0 <= i < |tail| ==> tail[i] == parts[i + 1];
    if |parts| > 1 {
      assert rest[1..] == Join(tail, ".");
      PartsAgreeIff(tail, digit);
    }
    HeadsAgree(parts, digit, if DigitPrefix(p) == p && rest != "" then DottedNumbers(rest[1..]) else []);
  }

  lemma HeadsAgree(parts: seq<string>, digit: char -> bool, tail: seq<int>)
    requires parts != []
    requires tail == [] || DigitPrefix(parts[0]) == parts[0]
    requires DigitPrefix(parts[0]) == parts[0] ==>
      (tail == DoctorNumbers(parts[1..], digit) <==> AgreeOn(parts[1..], digit))
    ensures
      var digits := DigitPrefix(parts[0]);
      (if digits == "" then [] else [Wrapped(Number(digits))] + tail) == DoctorNumbers(parts, digit)
      <==> AgreeOn(parts, digit)
  {
    var digits, more := DigitPrefix(parts[0]), DoctorNumbers(parts[1..], digit);
    PartNumbers(parts[0], digit);
    var head := [Wrapped(Number(digits))];
    assert (head + tail)[0] == head[0] && (head + tail)[1..] == tail;
    assert (head + more)[1..] == more;
  }

  /** Whole versions. A capital V is a prefix for the audit only, so nothing may follow it that the audit reads;
      otherwise both drop the same prefixes and must agree on the parts. */
  predicate AgreeOnVersion(value: string, digit: char -> bool) {
    var s := TrimSpace(value);
    if s != "" && s[0] == 'V' then DigitPrefix(DropPrefix(s[1..], "go")) == ""
    else AgreeOn(Split(DropPrefix(DropPrefix(s, "v"), "go"), '.'), digit)
  }

  lemma DropV(s: string)
    ensures DropPrefix(s, "v") == if s != "" && s[0] == 'v' then s[1..] else s
  {
    if s != "" {
      assert "v" <= s <==> s[0] == "v"[0];
    }
  }

  lemma FirstPart(s: string)
    requires s != "" && s[0] != '.'
    ensures Split(s, '.')[0] != "" && Split(s, '.')[0][0] == s[0]
  {
    JoinHead(Split(s, '.'));
  }

  lemma CapitalGivesNone(s: string, digit: char -> bool)
    requires s != "" && s[0] == 'V' && !digit('V')
    ensures DoctorNumbers(Split(DropPrefix(DropPrefix(s, "v"), "go"), '.'), digit) == []
  {
    DropV(s);
    assert "go"[0] == 'g';
    assert DropPrefix(s, "go") == s;
    FirstPart(s);
  }

  /** The two parsers give the same components for a version if and only if it passes that test. */
  lemma ParsersAgreeIff(value: string, digit: char -> bool)
    requires !digit('V')
    ensures AuditComponents(value) == DoctorComponents(value, digit) <==> AgreeOnVersion(value, digit)
  {
    var s := TrimSpace(value);
    DropV(s);
    if s != "" && s[0] == 'V' {
      CapitalGivesNone(s, digit);
    } else {
      var body := DropPrefix(DropPrefix(s, "v"), "go");
      var parts := Split(body, '.');
      assert forall i :: 0 <= i < |parts| ==> parts[i] in parts;
      PartsAgreeIff(parts, digit);
    }
  }

  /** Two component lists compare alike with everything if and only if they are the same version. */
  lemma ComparesAlikeIff(v: seq<int>, w: seq<int>)
    ensures (forall u :: Compare(v, u) == Compare(w, u)) <==> SameVersion(v, w)
  {
    if forall u :: Compare(v, u) == Compare(w, u) {
      assert Compare(v, w) == Compare(w, w);
      CompareMeans(v, w);
      CompareMeans(w, w);
    }
    if SameVersion(v, w) {
      forall u ensures Compare(v, u) == Compare(w, u) {
        SameComparesAlike(v, w, u);
      }
    }
  }

  lemma SameComparesAlike(v: seq<int>, w: seq<int>, u: seq<int>)
    requires SameVersion(v, w)
    ensures Compare(v, u) == Compare(w, u)
  {
    CompareMeans(v, u);
    CompareMeans(w, u);
    CompareFromMeans(v, u, 0);
    if Smaller(v, u) {
      var i: nat :| SmallerAt(v, u, i);
      assert SmallerAt(w, u, i);
    }
    if Smaller(u, v) {
      var i: nat :| SmallerAt(u, v, i);
      assert SmallerAt(u, w, i);
    }
  }

  /** So the two comparisons agree on versions that both parsers read as the same version, in particular on those
      that pass the test on their parts. */
  lemma ComparisonsAgree(a: string, b: string, digit: char -> bool)
    requires SameVersion(AuditComponents(a), DoctorComponents(a, digit))
    requires SameVersion(AuditComponents(b), DoctorComponents(b, digit))
    ensures Compare(AuditComponents(a), AuditComponents(b)) ==
      Compare(DoctorComponents(a, digit), DoctorComponents(b, digit))
  {
    var v, w := DoctorComponents(a, digit), DoctorComponents(b, digit);
    SameComparesAlike(AuditComponents(a), v, AuditComponents(b));
    SameComparesAlike(AuditComponents(b), w, v);
    CompareAntisymmetric(v, AuditComponents(b));
    CompareAntisymmetric(v, w);
  }

  /** A version on which they differ: the capital V. */
  lemma ParsersDiffer(digit: char -> bool)
    requires !digit('V')
    ensures AuditComponents("V1") == [1] && DoctorComponents("V1", digit) == []
  {
    TrimTrimmed("V1");
    CapitalGivesNone("V1", digit);
    OneIsOne();
    assert "V1"[1..] == "1" && "go"[0] == 'g';
    assert "1" + "" == "1";
    DottedHead("1", "");
  }

  lemma OneIsOne()
    ensures DigitPrefix("1") == "1" && Number("1") == 1
  {
    assert "1"[1..] == "" && "1"[..0] == "";
    assert DigitPrefix("") == "" && Number("") == 0;
  }

  lemma Unprefixed(s: string, digit: char -> bool)
    requires s != "" && IsDigit(s[0]) && IsTrimmed(s)
    ensures AuditComponents(s) == DottedNumbers(s)
    ensures DoctorComponents(s, digit) == DoctorNumbers(Split(s, '.'), digit)
  {
    TrimTrimmed(s);
    DropV(s);
    assert "go"[0] == 'g';
  }

  /** Another: a pre-release, whose last part only the doctor goes on to. */
  lemma PreReleaseDiffers(digit: char -> bool)
    requires !digit('-')
    ensures AuditComponents("1-r.1") == [1] && DoctorComponents("1-r.1", digit) == [1, 1]
  {
    Unprefixed("1-r.1", digit);
    PreReleaseAudit();
    PreReleaseParts();
    PreReleaseDoctor(digit);
  }

  lemma DoctorNext(p: string, rest: seq<string>, digit: char -> bool)
    requires ScriptPrefix(p, digit) == "1"
    ensures DoctorNumbers([p] + rest, digit) == [1] + DoctorNumbers(rest, digit)
  {
    OneIsOne();
    assert ([p] + rest)[0] == p && ([p] + rest)[1..] == rest;
  }

  lemma PreReleaseDoctor(digit: char -> bool)
    requires !digit('-')
    ensures DoctorNumbers(["1-r", "1"], digit) == [1, 1]
  {
    ScriptOfJunk("1-r", digit);
    DoctorNext("1-r", ["1"], digit);
    ScriptOfOne(digit);
    DoctorNext("1", [], digit);
    assert ["1"] + [] == ["1"] && ["1-r"] + ["1"] == ["1-r", "1"];
    assert [1] + [1] == [1, 1];
  }

  lemma PreReleaseAudit()
    ensures DottedNumbers("1-r.1") == [1]
  {
    OneIsOne();
    assert "1-r" == "1" + "-r" && "1-r.1" == "1-r" + ".1";
    DigitPrefixIs("1", "-r");
    DottedHead("1-r", ".1");
  }

  lemma PreReleaseParts()
    ensures Split("1-r.1", '.') == ["1-r", "1"]
  {
    assert "1-r" + ['.'] + "1" == "1-r.1";
    SplitStep("1-r", "1", '.');
    assert Split("1", '.') == ["1"];
  }

  lemma ScriptOfJunk(junk: string, digit: char -> bool)
    requires junk == "1-r" && !digit('-')
    ensures ScriptPrefix(junk, digit) == "1"
  {
    assert junk[1..][0] == '-';
    assert ScriptPrefix(junk[1..], digit) == "";
  }

  lemma ScriptOfOne(digit: char -> bool)
    ensures ScriptPrefix("1", digit) == "1"
  {
    assert "1"[1..] == "" && ScriptPrefix("", digit) == "";
  }

  // ----- trailing zeros of a version

  predicate DigitPart(p: string) {
    p != "" && AllDigits(p)
  }

  function Numbers(parts: seq<string>): seq<int> {
    if parts == [] then [] else [Wrapped(Number(parts[0]))] + Numbers(parts[1..])
  }

  lemma AllDigitsPrefix(p: string)
    requires AllDigits(p)
    ensures DigitPrefix(p) == p && '.' !in p
  {
    assert p + "" == p;
    DigitPrefixIs(p, "");
  }

  lemma {:induction false} AuditPlain(parts: seq<string>)
    requires parts != [] && forall i :: 0 <= i < |parts| ==> DigitPart(parts[i])
    ensures DottedNumbers(Join(parts, ".")) == Numbers(parts)
    decreases |parts|
  {
    AllDigitsPrefix(parts[0]);
    JoinHead(parts);
    if |parts| == 1 {
      DottedHead(parts[0], "");
      assert Numbers(parts[1..]) == [];
    } else {
      var rest := "." + Join(parts[1..], ".");
      DottedHead(parts[0], rest);
      assert rest[1..] == Join(parts[1..], ".");
      AuditPlain(parts[1..]);
    }
  }

  lemma PlainJoined(parts: seq<string>)
    requires parts != [] && forall i :: 0 <= i < |parts| ==> DigitPart(parts[i])
    ensures
      var s := Join(parts, ".");
      s != "" && IsDigit(s[0]) && IsDigit(s[|s| - 1]) && IsTrimmed(s)
  {
    if |parts| > 1 {
      PlainJoined(parts[1..]);
      assert Join(parts, ".") == parts[0] + "." + Join(parts[1..], ".");
    }
  }

  /** What may stand before the numbers: an optional v or V, then an optional go. */
  predicate VersionPrefix(prefix: string) {
    prefix in ["", "v", "V", "go", "vgo", "Vgo"]
  }

  lemma DropsPrefix(prefix: string, body: string)
    requires VersionPrefix(prefix) && body != "" && IsDigit(body[0])
    ensures
      var s := prefix + body;
      DropPrefix(if s[0] == 'v' || s[0] == 'V' then s[1..] else s, "go") == body
  {
    var s := prefix + body;
    assert "go"[0] == 'g';
    if prefix == "" {
      assert s == body;
    } else if prefix == "v" || prefix == "V" {
      assert s[1..] == body;
    } else if prefix == "go" {
      assert s[2..] == body;
    } else {
      assert s[1..] == "go" + body && s[1..][2..] == body;
    }
  }

  lemma PrefixTrimmed(prefix: string, body: string)
    requires VersionPrefix(prefix) && body != "" && IsDigit(body[0]) && IsDigit(body[|body| - 1])
    ensures TrimSpace(prefix + body) == prefix + body && prefix + body != ""
  {
    var s := prefix + body;
    assert s[|s| - 1] == body[|body| - 1];
    assert s[0] == if prefix == "" then body[0] else prefix[0];
    TrimTrimmed(s);
  }

  lemma AuditBody(prefix: string, body: string)
    requires VersionPrefix(prefix) && body != "" && IsDigit(body[0]) && IsDigit(body[|body| - 1])
    ensures AuditComponents(prefix + body) == DottedNumbers(body)
  {
    PrefixTrimmed(prefix, body);
    DropsPrefix(prefix, body);
  }

  lemma AuditDigits(prefix: string, parts: seq<string>, body: string)
    requires VersionPrefix(prefix) && parts != [] && forall i :: 0 <= i < |parts| ==> DigitPart(parts[i])
    requires body == Join(parts, ".")
    ensures AuditComponents(prefix + body) == Numbers(parts)
  {
    PlainJoined(parts);
    AuditBody(prefix, body);
    AuditPlain(parts);
  }

  /** A version with ".0" n times at its end. */
  function WithZeros(parts: seq<string>, n: nat): seq<string> {
    if n == 0 then parts else WithZeros(parts, n - 1) + ["0"]
  }

  lemma {:induction false} NumbersSnoc(parts: seq<string>, p: string)
    ensures Numbers(parts + [p]) == Numbers(parts) + [Wrapped(Number(p))]
  {
    if parts == [] {
      assert parts + [p] == [p] && [p][1..] == [];
    } else {
      assert (parts + [p])[1..] == parts[1..] + [p];
      NumbersSnoc(parts[1..], p);
    }
  }

  lemma {:induction false} NumbersWithZeros(parts: seq<string>, n: nat)
    requires forall i :: 0 <= i < |parts| ==> DigitPart(parts[i])
    ensures |WithZeros(parts, n)| == |parts| + n
    ensures forall i :: 0 <= i < |WithZeros(parts, n)| ==> DigitPart(WithZeros(parts, n)[i])
    ensures Numbers(WithZeros(parts, n)) == Numbers(parts) + Zeros(n)
  {
    if n == 0 {
      assert Zeros(0) == [] && Numbers(parts) + [] == Numbers(parts);
    } else {
      NumbersWithZeros(parts, n - 1);
      NumbersSnoc(WithZeros(parts, n - 1), "0");
      assert "0"[..0] == "" && Number("0") == 0;
      assert Zeros(n) == Zeros(n - 1) + [0];
    }
  }

  lemma SameComparison(a: string, b: string, parts: seq<string>, n: nat, w: seq<int>)
    requires AuditComponents(a) == Numbers(parts) && AuditComponents(b) == Numbers(parts) + Zeros(n)
    ensures Compare(AuditComponents(b), w) == Compare(AuditComponents(a), w)
  {
    CompareIgnoresZeros(Numbers(parts), w, n);
  }

  /** A version, with or without a prefix, compares with any other as it does with ".0" any number of times at
      its end. */
  lemma VersionIgnoresZeros(prefix: string, parts: seq<string>, n: nat, w: seq<int>)
    requires VersionPrefix(prefix) && parts != [] && forall i :: 0 <= i < |parts| ==> DigitPart(parts[i])
    ensures
      var a, b := prefix + Join(parts, "."), prefix + Join(WithZeros(parts, n), ".");
      Compare(AuditComponents(b), w) == Compare(AuditComponents(a), w)
  {
    NumbersWithZeros(parts, n);
    var body, more := Join(parts, "."), Join(WithZeros(parts, n), ".");
    AuditDigits(prefix, parts, body);
    AuditDigits(prefix, WithZeros(parts, n), more);
    SameComparison(prefix + body, prefix + more, parts, n, w);
  }

  // ----- the methods

  /** The comparison loop, the same in both files. */
  method CompareComponents(left: seq<int>, right: seq<int>) returns (r: int)
    ensures r == Compare(left, right)
  {
    var length := if |right| > |left| then |right| else |left|;
    var i := 0;
    while i < length
      invariant 0 <= i <= length && CompareFrom(left, right, i) == Compare(left, right)
    {
      var l, r := 0, 0;
      if i < |left| {
        l := left[i];
      }
      if i < |right| {
        r := right[i];
      }
      if l < r {
        return -1;
      }
      if l > r {
        return 1;
      }
      i := i + 1;
    }
    return 0;
  }

  /** n = n*10 + digit, one rune after another, in 64 bits. */
  method PartNumber(part: string) returns (n: int)
    ensures n == Wrapped(Number(DigitPrefix(part)))
  {
    n := 0;
    DigitPrefixSplits(part);
    var i := 0;
    while i < |part| && IsDigit(part[i])
      invariant 0 <= i <= |DigitPrefix(part)| && n == Wrapped(Number(DigitPrefix(part)[..i]))
    {
      var digits := DigitPrefix(part);
      assert i < |digits| && digits[i] == part[i];
      assert digits[..i + 1][..i] == digits[..i];
      WrapStep(Number(digits[..i]), (part[i] as int - '0' as int));
      n := Wrapped(n * 10 + (part[i] as int - '0' as int));
      i := i + 1;
    }
    assert DigitPrefix(part)[..i] == DigitPrefix(part);
  }

  lemma WrapStep(n: int, d: int)
    ensures Wrapped(Wrapped(n) * 10 + d) == Wrapped(n * 10 + d)
  {
    var q := n / TWO_64;
    assert n == q * TWO_64 + n % TWO_64;
    var k := if n % TWO_64 > MAX_INT then q + 1 else q;
    assert Wrapped(n) == n - k * TWO_64;
    assert Wrapped(n) * 10 + d == n * 10 + d - (10 * k) * TWO_64;
    ModShift(n * 10 + d, 10 * k);
  }

  lemma {:induction false} ModShift(a: int, k: int)
    ensures (a - k * TWO_64) % TWO_64 == a % TWO_64
    decreases if k < 0 then -k else k
  {
    if k > 0 {
      ModShift(a, k - 1);
      assert a - k * TWO_64 == (a - (k - 1) * TWO_64) - TWO_64;
    } else if k < 0 {
      ModShift(a, k + 1);
      assert a - k * TWO_64 == (a - (k + 1) * TWO_64) + TWO_64;
    }
  }

  ghost predicate SortedBy(out: seq<string>, key: string -> seq<int>) {
    forall i, j :: 0 <= i < j < |out| ==> Compare(key(out[i]), key(out[j])) <= 0
  }

  function Inserted(sorted: seq<string>, v: string, i: nat): seq<string>
    requires i <= |sorted|
  {
    sorted[..i] + [v] + sorted[i..]
  }

  lemma InsertedDistinct(sorted: seq<string>, v: string, i: nat)
    requires i <= |sorted| && Distinct(sorted) && v !in sorted
    ensures Distinct(Inserted(sorted, v, i))
    ensures forall x :: x in Inserted(sorted, v, i) <==> x == v || x in sorted
  {
    assert sorted == sorted[..i] + sorted[i..];
  }

  lemma InsertedSorted(sorted: seq<string>, v: string, i: nat, key: string -> seq<int>)
    requires i <= |sorted| && SortedBy(sorted, key)
    requires forall j :: 0 <= j < i ==> Compare(key(sorted[j]), key(v)) <= 0
    requires i < |sorted| ==> Compare(key(sorted[i]), key(v)) > 0
    ensures SortedBy(Inserted(sorted, v, i), key)
  {
    forall j | i <= j < |sorted| ensures Compare(key(v), key(sorted[j])) <= 0 {
      CompareAntisymmetric(key(sorted[i]), key(v));
      if i < j {
        CompareTransitive(key(v), key(sorted[i]), key(sorted[j]));
      }
    }
  }

  /** One step of sort.Slice with the comparison above. */
  method InsertBy(sorted: seq<string>, v: string, key: string -> seq<int>) returns (r: seq<string>)
    requires SortedBy(sorted, key) && Distinct(sorted) && v !in sorted
    ensures SortedBy(r, key) && Distinct(r)
    ensures forall x :: x in r <==> x == v || x in sorted
  {
    var i := 0;
    while i < |sorted| && Compare(key(sorted[i]), key(v)) <= 0
      invariant 0 <= i <= |sorted|
      invariant forall j :: 0 <= j < i ==> Compare(key(sorted[j]), key(v)) <= 0
    {
      i := i + 1;
    }
    InsertedSorted(sorted, v, i, key);
    InsertedDistinct(sorted, v, i);
    r := Inserted(sorted, v, i);
  }

  /** Versions: the trimmed values that are not blank, each once, in version order. */
  method SortVersions(values: seq<string>) returns (out: seq<string>)
    ensures SortedBy(out, AuditComponents) && Distinct(out)
    ensures forall x :: x in out <==> x != "" && exists i :: 0 <= i < |values| && TrimSpace(values[i]) == x
  {
    out := [];
    for i := 0 to |values|
      invariant SortedBy(out, AuditComponents) && Distinct(out)
      invariant forall x :: x in out <==> x != "" && exists j :: 0 <= j < i && TrimSpace(values[j]) == x
    {
      var value := TrimSpace(values[i]);
      if value != "" && value !in out {
        out := InsertBy(out, value, AuditComponents);
      }
    }
  }
}
