/** Semantic versions: strict parser, printer and comparison (uni_protocol/semver.go). */
module Semver {
  import opened Options
  import opened Text
  import opened Decimal

  /** The largest Go `int` on a 64-bit platform; `strconv.Atoi` fails above it. */
  const MAX_INT := 0x7FFF_FFFF_FFFF_FFFF

  datatype Semver = Semver(major: int, minor: int, patch: int, pre: string)

  function Print(v: Semver): string {
    Itoa(v.major) + "." + Itoa(v.minor) + "." + Itoa(v.patch) + (if v.pre != "" then "-" + v.pre else "")
  }

  // ----- identifiers -----

  /** A decimal identifier without leading zeros that fits an `int`. */
  function NumericIdent(s: string): Option<nat> {
    if s != "" && AllDigits(s) && !(|s| > 1 && s[0] == '0') && Value(s) <= MAX_INT then Some(Value(s)) else None
  }

  method ParseNumericIdent(s: string) returns (r: Option<nat>)
    ensures r == NumericIdent(s)
  {
    if s == "" {
      return None;
    }
    for i := 0 to |s|
      invariant forall j | 0 <= j < i :: IsDigit(s[j])
    {
      if s[i] < '0' || s[i] > '9' {
        return None;
      }
    }
    if |s| > 1 && s[0] == '0' {
      return None;
    }
    r := Atoi(s);
  }

  /** `strconv.Atoi` on a string of digits: accumulates from the left and rejects what does not fit. */
  method Atoi(s: string) returns (r: Option<nat>)
    requires AllDigits(s)
    ensures r == if Value(s) <= MAX_INT then Some(Value(s)) else None
  {
    var n := 0;
    for i := 0 to |s|
      invariant n == Value(s[..i])
    {
      assert s[..i + 1][..i] == s[..i];
      n := n * 10 + (s[i] - '0') as nat;
    }
    assert s[..|s|] == s;
    r := if n <= MAX_INT then Some(n) else None;
  }

  predicate IdentChar(c: char) {
    '0' <= c <= '9' || 'a' <= c <= 'z' || 'A' <= c <= 'Z' || c == '-'
  }

  /** By their ASCII codes: the digits, the capital letters, the small letters and the hyphen. */
  lemma IdentChars(c: char)
    ensures var n := c as int;
      IdentChar(c) <==> 48 <= n <= 57 || 65 <= n <= 90 || 97 <= n <= 122 || n == 45
  {
  }

  predicate LegalIdent(seg: string) {
    seg != "" && forall i | 0 <= i < |seg| :: IdentChar(seg[i])
  }

  predicate LegalIdents(s: string) {
    forall seg | seg in Split(s, '.') :: LegalIdent(seg)
  }

  method ValidPreIdent(s: string) returns (ok: bool)
    ensures ok == LegalIdents(s)
  {
    var parts := Split(s, '.');
    for k := 0 to |parts|
      invariant forall j | 0 <= j < k :: LegalIdent(parts[j])
    {
      var seg := parts[k];
      assert seg in parts;
      if seg == "" {
        return false;
      }
      for i := 0 to |seg|
        invariant forall j | 0 <= j < i :: IdentChar(seg[j])
      {
        if !IdentChar(seg[i]) {
          assert !LegalIdent(seg);
          return false;
        }
      }
    }
    ok := true;
  }

  // ----- parsing -----

  /** The text before the first `c`, and the text after it if there is one. */
  function Cut(s: string, c: char): (r: (string, Option<string>))
  {
    var i := IndexByte(s, c);
    if i < 0 then (s, None) else (s[..i], Some(s[i + 1..]))
  }

  /** What is left of a version text when its build metadata is dropped. */
  function WithoutBuild(s: string): string {
    Cut(s, '+').0
  }

  /** Three dot-separated numbers. */
  function ParseCore(core: string): Option<(nat, nat, nat)> {
    var parts := Split(core, '.');
    if |parts| != 3 then None
    else
      match (NumericIdent(parts[0]), NumericIdent(parts[1]), NumericIdent(parts[2]))
      case (Some(a), Some(b), Some(c)) => Some((a, b, c))
      case _ => None
  }

  /** An optional section after `+` or `-` must be present as a whole: neither empty nor with an illegal identifier. */
  predicate LegalSection(section: Option<string>) {
    section.Some? ==> section.value != "" && LegalIdents(section.value)
  }

  /** A version text whose build metadata is already gone. */
  function ParseRelease(rest: string): Option<Semver> {
    var (core, pre) := Cut(rest, '-');
    if !LegalSection(pre) then None
    else
      match ParseCore(core)
      case None => None
      case Some((a, b, c)) => Some(Semver(a, b, c, if pre.Some? then pre.value else ""))
  }

  /** Not empty, and `strings.TrimSpace` leaves it alone. */
  predicate Trimmed(s: string) {
    s != "" && !IsSpace(s[0]) && !IsSpace(s[|s| - 1])
  }

  function Parse(s: string): Option<Semver> {
    if Trimmed(s) && LegalSection(Cut(s, '+').1) then ParseRelease(Cut(s, '+').0) else None
  }

  predicate IsSemver(s: string) {
    Parse(s).Some?
  }

  method ParseSemver(text: string) returns (r: Option<Semver>)
    ensures r == Parse(text)
  {
    var s := text;
    if !Trimmed(s) {
      return None;
    }
    var i := IndexByte(s, '+');
    if i >= 0 {
      var build := s[i + 1..];
      var legal := ValidPreIdent(build);
      if build == "" || !legal {
        return None;
      }
      s := s[..i];
    }
    r := ParseWithoutBuild(s);
  }

  /** The part of `ParseSemver` after the build metadata is dropped. */
  method ParseWithoutBuild(text: string) returns (r: Option<Semver>)
    ensures r == ParseRelease(text)
  {
    var s, pre := text, "";
    var i := IndexByte(s, '-');
    if i >= 0 {
      pre := s[i + 1..];
      s := s[..i];
      var legal := ValidPreIdent(pre);
      if pre == "" || !legal {
        return None;
      }
    }
    var nums := ParseNumbers(s);
    r := if nums.None? then None else Some(Semver(nums.value.0, nums.value.1, nums.value.2, pre));
  }

  /** The part of `ParseSemver` that fills the three numbers. */
  method ParseNumbers(core: string) returns (r: Option<(nat, nat, nat)>)
    ensures r == ParseCore(core)
  {
    var parts := Split(core, '.');
    if |parts| != 3 {
      return None;
    }
    var nums: seq<nat> := [0, 0, 0];
    for k := 0 to 3
      invariant |nums| == 3
      invariant forall j | 0 <= j < k :: NumericIdent(parts[j]) == Some(nums[j])
    {
      var n := ParseNumericIdent(parts[k]);
      if n.None? {
        return None;
      }
      nums := nums[k := n.value];
    }
    r := Some((nums[0], nums[1], nums[2]));
  }

  // ----- comparison -----

  /** What the comparison sees of one pre-release identifier. */
  datatype Key = Number(n: nat) | Word(text: string)

  function KeyOf(seg: string): Key {
    match NumericIdent(seg)
    case Some(n) => Number(n)
    case None => Word(seg)
  }

  function Sign(a: int, b: int): int {
    if a < b then -1 else if a > b then 1 else 0
  }

  function CompareKey(a: Key, b: Key): int {
    match (a, b)
    case (Number(m), Number(n)) => Sign(m, n)
    case (Number(_), Word(_)) => -1
    case (Word(_), Number(_)) => 1
    case (Word(x), Word(y)) => CompareText(x, y)
  }

  function Keys(pre: string): seq<Key> {
    var parts := Split(pre, '.');
    seq(|parts|, i requires 0 <= i < |parts| => KeyOf(parts[i]))
  }

  /** Lexicographic order of key lists; a proper prefix comes first. */
  function CompareKeys(a: seq<Key>, b: seq<Key>): int {
    if a == [] then (if b == [] then 0 else -1)
    else if b == [] then 1
    else if CompareKey(a[0], b[0]) != 0 then CompareKey(a[0], b[0])
    else CompareKeys(a[1..], b[1..])
  }

  function Compare(a: Semver, b: Semver): int {
    if a.major != b.major then Sign(a.major, b.major)
    else if a.minor != b.minor then Sign(a.minor, b.minor)
    else if a.patch != b.patch then Sign(a.patch, b.patch)
    else if a.pre == "" || b.pre == "" then (if a.pre == b.pre then 0 else if a.pre == "" then 1 else -1)
    else CompareKeys(Keys(a.pre), Keys(b.pre))
  }

  lemma CompareKeysFromPrefix(a: seq<Key>, b: seq<Key>, i: nat)
    requires i <= |a| && i <= |b|
    requires forall j | 0 <= j < i :: CompareKey(a[j], b[j]) == 0
    ensures CompareKeys(a, b) == CompareKeys(a[i..], b[i..])
  {
    if i > 0 {
      CompareKeysFromPrefix(a[1..], b[1..], i - 1);
      assert a[1..][i - 1..] == a[i..] && b[1..][i - 1..] == b[i..];
    }
  }

  method ComparePre(a: string, b: string) returns (r: int)
    ensures r == CompareKeys(Keys(a), Keys(b))
  {
    var xs, ys := Split(a, '.'), Split(b, '.');
    var i := 0;
    while i < |xs| && i < |ys|
      invariant i <= |xs| && i <= |ys|
      invariant forall j | 0 <= j < i :: CompareKey(Keys(a)[j], Keys(b)[j]) == 0
    {
      CompareTextLaws(xs[i], ys[i]);
      CompareKeysFromPrefix(Keys(a), Keys(b), i);
      var m := ParseNumericIdent(xs[i]);
      var n := ParseNumericIdent(ys[i]);
      if m.Some? && n.Some? {
        if m.value != n.value {
          return if m.value < n.value then -1 else 1;
        }
      } else if m.Some? {
        return -1;
      } else if n.Some? {
        return 1;
      } else if xs[i] != ys[i] {
        return CompareText(xs[i], ys[i]);
      }
      i := i + 1;
    }
    CompareKeysFromPrefix(Keys(a), Keys(b), i);
    r := Sign(|xs|, |ys|);
  }

  method CompareSemver(a: Semver, b: Semver) returns (r: int)
    ensures r == Compare(a, b)
  {
    var pairs := [(a.major, b.major), (a.minor, b.minor), (a.patch, b.patch)];
    for i := 0 to 3
      invariant forall j | 0 <= j < i :: pairs[j].0 == pairs[j].1
    {
      if pairs[i].0 != pairs[i].1 {
        assert i == 0 || (i == 1 && pairs[0].0 == pairs[0].1)
          || (i == 2 && pairs[0].0 == pairs[0].1 && pairs[1].0 == pairs[1].1);
        return if pairs[i].0 < pairs[i].1 then -1 else 1;
      }
    }
    assert pairs[0].0 == pairs[0].1 && pairs[1].0 == pairs[1].1 && pairs[2].0 == pairs[2].1;
    if a.pre == "" && b.pre == "" {
      return 0;
    } else if a.pre == "" {
      return 1;
    } else if b.pre == "" {
      return -1;
    }
    r := ComparePre(a.pre, b.pre);
  }
}
