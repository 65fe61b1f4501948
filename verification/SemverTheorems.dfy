/**
  What the version functions promise: the parser and the printer undo each other, the comparison
  is a total order that only identifies equal values, and it agrees with section 11 of
  Semantic Versioning 2.0.0 exactly as far as the identifiers fit an `int`.
 */
module SemverTheorems {
  import opened Options
  import opened Text
  import opened Decimal
  import opened Semver

  // ----- the comparison is a total order -----

  lemma KeyLaws(a: Key, b: Key)
    ensures CompareKey(a, b) == -CompareKey(b, a)
    ensures CompareKey(a, b) == 0 <==> a == b
  {
    if a.Word? && b.Word? {
      CompareTextLaws(a.text, b.text);
    }
  }

  lemma KeyTransitive(a: Key, b: Key, c: Key)
    requires CompareKey(a, b) <= 0 && CompareKey(b, c) <= 0
    ensures CompareKey(a, c) <= 0
  {
    if a.Word? && b.Word? && c.Word? {
      CompareTextTransitive(a.text, b.text, c.text);
    }
  }

  lemma {:induction false} KeysLaws(a: seq<Key>, b: seq<Key>)
    ensures CompareKeys(a, b) == -CompareKeys(b, a)
    ensures CompareKeys(a, b) == 0 <==> a == b
  {
    if a != [] && b != [] {
      KeyLaws(a[0], b[0]);
      KeysLaws(a[1..], b[1..]);
      assert a == [a[0]] + a[1..] && b == [b[0]] + b[1..];
    }
  }

  lemma {:induction false} KeysTransitive(a: seq<Key>, b: seq<Key>, c: seq<Key>)
    requires CompareKeys(a, b) <= 0 && CompareKeys(b, c) <= 0
    ensures CompareKeys(a, c) <= 0
  {
    if a != [] && b != [] && c != [] {
      KeyTransitive(a[0], b[0], c[0]);
      KeyLaws(a[0], b[0]);
      KeyLaws(b[0], c[0]);
      KeyLaws(a[0], c[0]);
      if CompareKey(a[0], c[0]) == 0 {
        KeyTransitive(c[0], a[0], b[0]);
        KeyLaws(c[0], b[0]);
        KeysTransitive(a[1..], b[1..], c[1..]);
      }
    }
  }

  /** Two identifiers look alike to the comparison only if they are the same text. */
  lemma KeyOfInjective(x: string, y: string)
    requires KeyOf(x) == KeyOf(y)
    ensures x == y
  {
    if NumericIdent(x).Some? {
      FormatOfValue(x);
      FormatOfValue(y);
    }
  }

  lemma KeysInjective(a: string, b: string)
    requires Keys(a) == Keys(b)
    ensures a == b
  {
    var xs, ys := Split(a, '.'), Split(b, '.');
    assert |xs| == |Keys(a)| == |Keys(b)| == |ys|;
    forall i | 0 <= i < |xs|
      ensures xs[i] == ys[i]
    {
      assert Keys(a)[i] == Keys(b)[i];
      KeyOfInjective(xs[i], ys[i]);
    }
    assert xs == ys;
    JoinSplit(a, '.');
    JoinSplit(b, '.');
  }

  /** The comparison is antisymmetric in sign, never leaves -1..1, and is 0 on equal values only. */
  lemma CompareLaws(a: Semver, b: Semver)
    ensures Compare(a, b) == -Compare(b, a)
    ensures Compare(a, b) == 0 <==> a == b
  {
    KeysLaws(Keys(a.pre), Keys(b.pre));
    if Keys(a.pre) == Keys(b.pre) {
      KeysInjective(a.pre, b.pre);
    }
  }

  lemma CompareTransitive(a: Semver, b: Semver, c: Semver)
    requires Compare(a, b) <= 0 && Compare(b, c) <= 0
    ensures Compare(a, c) <= 0
    ensures Compare(a, b) < 0 || Compare(b, c) < 0 ==> Compare(a, c) < 0
  {
    if a.pre != "" && b.pre != "" && c.pre != "" && CompareKeys(Keys(a.pre), Keys(b.pre)) <= 0
       && CompareKeys(Keys(b.pre), Keys(c.pre)) <= 0 {
      KeysTransitive(Keys(a.pre), Keys(b.pre), Keys(c.pre));
    }
    CompareLaws(a, c);
    CompareLaws(a, b);
    CompareLaws(b, c);
  }

  // ----- parser and printer undo each other -----

  /** The values the parser can produce. */
  predicate Legal(v: Semver) {
    && 0 <= v.major <= MAX_INT && 0 <= v.minor <= MAX_INT && 0 <= v.patch <= MAX_INT
    && (v.pre != "" ==> LegalIdents(v.pre))
  }

  lemma NumericIdentOfFormat(n: nat)
    requires n <= MAX_INT
    ensures NumericIdent(Format(n)) == Some(n)
  {
    ValueOfFormat(n);
  }

  lemma CharOfLegalIdents(s: string, i: nat)
    requires LegalIdents(s) && i < |s|
    ensures IdentChar(s[i]) || s[i] == '.'
  {
    var parts := Split(s, '.');
    if s[i] != '.' {
      CharOfSomePart(s, i);
    }
  }

  lemma {:induction false} CharOfSomePart(s: string, i: nat)
    requires i < |s| && s[i] != '.'
    ensures exists p, j: nat :: p in Split(s, '.') && j < |p| && p[j] == s[i]
  {
    var parts, rest := Split(s, '.'), Split(s[1..], '.');
    if i == 0 {
      assert parts[0] in parts && parts[0][0] == s[0];
    } else {
      CharOfSomePart(s[1..], i - 1);
      var p, j: nat :| p in rest && j < |p| && p[j] == s[i];
      if s[0] == '.' {
        assert parts == [[]] + rest;
        assert p in parts;
      } else if p == rest[0] {
        assert parts[0] in parts && parts[0][j + 1] == s[i];
      } else {
        assert p in rest[1..];
        assert p in parts;
      }
    }
  }

  function PrintCore(a: nat, b: nat, c: nat): string {
    Format(a) + "." + Format(b) + "." + Format(c)
  }

  lemma ParseCoreOfPrint(a: nat, b: nat, c: nat)
    requires a <= MAX_INT && b <= MAX_INT && c <= MAX_INT
    ensures ParseCore(PrintCore(a, b, c)) == Some((a, b, c))
  {
    var parts := [Format(a), Format(b), Format(c)];
    assert parts[1..][1..] == [Format(c)];
    assert Join(parts[1..], '.') == Format(b) + "." + Format(c);
    assert Join(parts, '.') == PrintCore(a, b, c);
    SplitJoin(parts, '.');
    NumericIdentOfFormat(a);
    NumericIdentOfFormat(b);
    NumericIdentOfFormat(c);
  }

  lemma PrintCoreOfParse(core: string)
    requires ParseCore(core).Some?
    ensures var (a, b, c) := ParseCore(core).value;
      a <= MAX_INT && b <= MAX_INT && c <= MAX_INT && PrintCore(a, b, c) == core
  {
    var parts := Split(core, '.');
    JoinSplit(core, '.');
    assert parts == [parts[0], parts[1], parts[2]];
    assert parts[1..] == [parts[1], parts[2]] && parts[1..][1..] == [parts[2]];
    assert Join([parts[2]], '.') == parts[2];
    assert Join(parts[1..], '.') == parts[1] + "." + parts[2];
    assert core == parts[0] + "." + (parts[1] + "." + parts[2]);
    assert core == parts[0] + "." + parts[1] + "." + parts[2];
    FormatOfValue(parts[0]);
    FormatOfValue(parts[1]);
    FormatOfValue(parts[2]);
  }

  lemma CutFirst(head: string, c: char, tail: string)
    requires c !in head
    ensures Cut(head + [c] + tail, c) == (head, Some(tail))
  {
    var s := head + [c] + tail;
    var i := IndexByte(s, c);
    assert s[|head|] == c;
    assert i >= |head|;
    assert forall j | 0 <= j < i :: s[..i][j] == s[j];
    assert s[..i] == head && s[i + 1..] == tail;
  }

  lemma CutAbsent(s: string, c: char)
    requires c !in s
    ensures Cut(s, c) == (s, None)
  {
  }

  lemma CutInverse(s: string, c: char)
    ensures var (head, tail) := Cut(s, c);
      c !in head && s == (if tail.Some? then head + [c] + tail.value else head)
  {
  }

  lemma PrintLegal(v: Semver)
    requires Legal(v)
    ensures Print(v) == PrintCore(v.major, v.minor, v.patch) + (if v.pre != "" then "-" + v.pre else "")
    ensures Print(v) != "" && '+' !in Print(v)
    ensures '+' !in PrintCore(v.major, v.minor, v.patch) && '-' !in PrintCore(v.major, v.minor, v.patch)
    ensures forall i | 0 <= i < |Print(v)| :: !IsSpace(Print(v)[i])
  {
    forall i | 0 <= i < |v.pre|
      ensures IdentChar(v.pre[i]) || v.pre[i] == '.'
    {
      CharOfLegalIdents(v.pre, i);
    }
    var a, b, c := Format(v.major), Format(v.minor), Format(v.patch);
    var core := a + "." + b + "." + c;
    assert forall i | 0 <= i < |core| :: IsDigit(core[i]) || core[i] == '.';
    if v.pre != "" {
      assert Print(v) == core + ("-" + v.pre);
    } else {
      assert Print(v) == core;
    }
  }

  /** Printing and parsing again gives the same value, for every legal value. */
  lemma ParseOfPrint(v: Semver)
    requires Legal(v)
    ensures Parse(Print(v)) == Some(v)
  {
    PrintLegal(v);
    CutAbsent(Print(v), '+');
    var core := PrintCore(v.major, v.minor, v.patch);
    ParseCoreOfPrint(v.major, v.minor, v.patch);
    if v.pre != "" {
      assert Print(v) == core + ['-'] + v.pre;
      CutFirst(core, '-', v.pre);
    } else {
      assert Print(v) == core;
      CutAbsent(core, '-');
    }
  }

  lemma PrintIsCore(a: nat, b: nat, c: nat, pre: string)
    ensures Print(Semver(a, b, c, pre)) == PrintCore(a, b, c) + (if pre != "" then "-" + pre else "")
  {
  }

  lemma PrintOfRelease(rest: string)
    requires ParseRelease(rest).Some?
    ensures Legal(ParseRelease(rest).value)
    ensures Print(ParseRelease(rest).value) == rest
  {
    hide ParseCore, Print, PrintCore, Cut, LegalIdents;
    var (core, pre) := Cut(rest, '-');
    var (a, b, c) := ParseCore(core).value;
    PrintCoreOfParse(core);
    CutInverse(rest, '-');
    PrintIsCore(a, b, c, if pre.Some? then pre.value else "");
    if pre.Some? {
      assert rest == core + ("-" + pre.value);
    }
  }

  /** Parsing and printing again gives the text without its build metadata. */
  lemma PrintOfParse(s: string)
    requires Parse(s).Some?
    ensures Legal(Parse(s).value)
    ensures Print(Parse(s).value) == WithoutBuild(s)
  {
    PrintOfRelease(WithoutBuild(s));
  }

  ghost predicate PrintedForm(s: string) {
    LegalSection(Cut(s, '+').1) && exists v :: Legal(v) && Print(v) == WithoutBuild(s)
  }

  lemma TrimmedWithBuild(rest: string, s: string)
    requires rest == WithoutBuild(s) && Trimmed(rest) && LegalSection(Cut(s, '+').1)
    ensures Trimmed(s)
  {
    CutInverse(s, '+');
    var build := Cut(s, '+').1;
    assert s[0] == rest[0];
    if build.Some? {
      CharOfLegalIdents(build.value, |build.value| - 1);
      assert s[|s| - 1] == build.value[|build.value| - 1];
    } else {
      assert s == rest;
    }
  }

  lemma PrintedFormAccepted(s: string, v: Semver)
    requires LegalSection(Cut(s, '+').1) && Legal(v) && Print(v) == WithoutBuild(s)
    ensures Parse(s) == Some(v)
  {
    ParseOfPrint(v);
    PrintLegal(v);
    CutAbsent(Print(v), '+');
    TrimmedWithBuild(Print(v), s);
  }

  /** The accepted texts are exactly the printed legal values, each followed by an optional legal build section. */
  lemma AcceptedTexts(s: string)
    ensures IsSemver(s) <==> PrintedForm(s)
  {
    if IsSemver(s) {
      PrintOfParse(s);
      assert Legal(Parse(s).value);
    }
    if PrintedForm(s) {
      var v :| Legal(v) && Print(v) == WithoutBuild(s);
      PrintedFormAccepted(s, v);
    }
  }

  /** Two accepted texts compare equal exactly when they agree after dropping build metadata. */
  lemma EqualUpToBuild(s: string, t: string)
    requires IsSemver(s) && IsSemver(t)
    ensures Compare(Parse(s).value, Parse(t).value) == 0 <==> WithoutBuild(s) == WithoutBuild(t)
  {
    CompareLaws(Parse(s).value, Parse(t).value);
    PrintOfParse(s);
    PrintOfParse(t);
    ParseOfPrint(Parse(s).value);
    ParseOfPrint(Parse(t).value);
  }

  // ----- agreement with section 11 of Semantic Versioning 2.0.0 -----

  /** Lexical order in ASCII sort order, written over positions. */
  ghost predicate LexPrecedes(x: string, y: string) {
    exists k: nat | k <= |x| && k <= |y| :: x[..k] == y[..k] && DiffersAt(x, y, k)
  }

  predicate DiffersAt(x: string, y: string, k: nat)
    requires k <= |x| && k <= |y|
  {
    k < |y| && (k == |x| || x[k] < y[k])
  }

  /** Rules 11.4.1 to 11.4.3 for one identifier. */
  ghost predicate IdentPrecedes(x: string, y: string) {
    if AllDigits(x) && AllDigits(y) then Value(x) < Value(y)
    else if AllDigits(x) || AllDigits(y) then AllDigits(x)
    else LexPrecedes(x, y)
  }

  /** Rule 11.4: the first difference decides; if there is none, the longer list is higher (11.4.4). */
  ghost predicate ListPrecedes(xs: seq<string>, ys: seq<string>) {
    exists k: nat | k <= |xs| && k <= |ys| :: xs[..k] == ys[..k] && ListDiffersAt(xs, ys, k)
  }

  ghost predicate ListDiffersAt(xs: seq<string>, ys: seq<string>, k: nat)
    requires k <= |xs| && k <= |ys|
  {
    k < |ys| && (k == |xs| || (xs[k] != ys[k] && IdentPrecedes(xs[k], ys[k])))
  }

  /** Rules 11.2 to 11.4. */
  ghost predicate Precedes(a: Semver, b: Semver) {
    if a.major != b.major then a.major < b.major
    else if a.minor != b.minor then a.minor < b.minor
    else if a.patch != b.patch then a.patch < b.patch
    else if a.pre == "" || b.pre == "" then a.pre != "" && b.pre == ""
    else ListPrecedes(Split(a.pre, '.'), Split(b.pre, '.'))
  }

  /** Every purely numeric identifier is written without leading zeros (section 9) and fits an `int`. */
  predicate Ordinary(seg: string) {
    LegalIdent(seg) && (AllDigits(seg) ==> NumericIdent(seg).Some?)
  }

  predicate OrdinaryVersion(v: Semver) {
    Legal(v) && (v.pre != "" ==> forall seg | seg in Split(v.pre, '.') :: Ordinary(seg))
  }

  lemma EqualPrefix<T>(x: seq<T>, y: seq<T>, k: nat)
    requires k <= |x| && k <= |y| && x[..k] == y[..k]
    ensures forall i | 0 <= i < k :: x[i] == y[i]
  {
    assert forall i | 0 <= i < k :: x[i] == x[..k][i] && y[i] == y[..k][i];
  }

  lemma {:induction false} LexAgrees(x: string, y: string)
    ensures CompareText(x, y) < 0 <==> LexPrecedes(x, y)
  {
    if x == [] || y == [] {
      assert y != [] ==> x[..0] == y[..0] && DiffersAt(x, y, 0);
    } else if x[0] != y[0] {
      assert x[..0] == y[..0];
      if LexPrecedes(x, y) {
        var k: nat :| k <= |x| && k <= |y| && x[..k] == y[..k] && DiffersAt(x, y, k);
        EqualPrefix(x, y, k);
      }
    } else {
      LexAgrees(x[1..], y[1..]);
      if LexPrecedes(x[1..], y[1..]) {
        var k: nat :| k <= |x[1..]| && k <= |y[1..]| && x[1..][..k] == y[1..][..k] && DiffersAt(x[1..], y[1..], k);
        assert x[..k + 1] == [x[0]] + x[1..][..k] && y[..k + 1] == [y[0]] + y[1..][..k];
        assert DiffersAt(x, y, k + 1);
      }
      if LexPrecedes(x, y) {
        var k: nat :| k <= |x| && k <= |y| && x[..k] == y[..k] && DiffersAt(x, y, k);
        assert k > 0;
        assert x[1..][..k - 1] == x[..k][1..] && y[1..][..k - 1] == y[..k][1..];
        assert DiffersAt(x[1..], y[1..], k - 1);
      }
    }
  }

  lemma IdentAgrees(x: string, y: string)
    requires Ordinary(x) && Ordinary(y)
    ensures CompareKey(KeyOf(x), KeyOf(y)) < 0 <==> IdentPrecedes(x, y)
  {
    LexAgrees(x, y);
  }

  lemma {:induction false} ListAgrees(xs: seq<string>, ys: seq<string>, a: seq<Key>, b: seq<Key>)
    requires |a| == |xs| && |b| == |ys|
    requires forall i | 0 <= i < |xs| :: Ordinary(xs[i]) && a[i] == KeyOf(xs[i])
    requires forall i | 0 <= i < |ys| :: Ordinary(ys[i]) && b[i] == KeyOf(ys[i])
    ensures CompareKeys(a, b) < 0 <==> ListPrecedes(xs, ys)
  {
    if xs == [] || ys == [] {
      assert ys != [] ==> xs[..0] == ys[..0] && ListDiffersAt(xs, ys, 0);
    } else {
      IdentAgrees(xs[0], ys[0]);
      KeyLaws(a[0], b[0]);
      if xs[0] != ys[0] {
        if a[0] == b[0] {
          KeyOfInjective(xs[0], ys[0]);
        }
        assert xs[..0] == ys[..0];
        if ListPrecedes(xs, ys) {
          var k: nat :| k <= |xs| && k <= |ys| && xs[..k] == ys[..k] && ListDiffersAt(xs, ys, k);
          EqualPrefix(xs, ys, k);
        }
      } else {
        ListAgrees(xs[1..], ys[1..], a[1..], b[1..]);
        ListPrecedesTail(xs, ys);
      }
    }
  }

  lemma ListPrecedesTail(xs: seq<string>, ys: seq<string>)
    requires xs != [] && ys != [] && xs[0] == ys[0]
    ensures ListPrecedes(xs, ys) <==> ListPrecedes(xs[1..], ys[1..])
  {
    if ListPrecedes(xs[1..], ys[1..]) {
      var k: nat :| k <= |xs[1..]| && k <= |ys[1..]| && xs[1..][..k] == ys[1..][..k]
        && ListDiffersAt(xs[1..], ys[1..], k);
      assert xs[..k + 1] == [xs[0]] + xs[1..][..k] && ys[..k + 1] == [ys[0]] + ys[1..][..k];
      assert ListDiffersAt(xs, ys, k + 1);
    }
    if ListPrecedes(xs, ys) {
      var k: nat :| k <= |xs| && k <= |ys| && xs[..k] == ys[..k] && ListDiffersAt(xs, ys, k);
      assert k > 0;
      assert xs[1..][..k - 1] == xs[..k][1..] && ys[1..][..k - 1] == ys[..k][1..];
      assert ListDiffersAt(xs[1..], ys[1..], k - 1);
    }
  }

  /** On ordinary versions the comparison is the precedence of section 11. */
  lemma AgreesWithSection11(a: Semver, b: Semver)
    requires OrdinaryVersion(a) && OrdinaryVersion(b)
    ensures Compare(a, b) < 0 <==> Precedes(a, b)
  {
    if a.pre != "" && b.pre != "" {
      ListAgrees(Split(a.pre, '.'), Split(b.pre, '.'), Keys(a.pre), Keys(b.pre));
    }
  }

  ghost predicate Agree(a: Semver, b: Semver) {
    (Compare(a, b) < 0 <==> Precedes(a, b)) && (Compare(b, a) < 0 <==> Precedes(b, a))
  }

  /**
    The agreement is exact: a legal version is ordered as section 11 says against every ordinary
    version if and only if it is ordinary itself. What fails otherwise is an all-digit identifier
    that the code takes for a word: the identifier `-` then sorts below it instead of above it.
   */
  lemma AgreementIsExact(a: Semver)
    requires Legal(a)
    ensures OrdinaryVersion(a) <==> forall b | OrdinaryVersion(b) :: Agree(a, b)
  {
    if OrdinaryVersion(a) {
      forall b | OrdinaryVersion(b)
        ensures Agree(a, b)
      {
        AgreesWithSection11(a, b);
        AgreesWithSection11(b, a);
      }
    } else {
      var b := Rival(a);
      assert OrdinaryVersion(b) && !Agree(a, b);
    }
  }

  lemma {:induction false} FirstOdd(xs: seq<string>) returns (k: nat)
    requires exists x :: x in xs && !Ordinary(x)
    ensures k < |xs| && !Ordinary(xs[k])
    ensures forall j | 0 <= j < k :: Ordinary(xs[j])
  {
    if Ordinary(xs[0]) {
      k := FirstOdd(xs[1..]);
      k := k + 1;
    } else {
      k := 0;
    }
  }

  /** The version that agrees with `a` up to its first odd identifier and has `-` there. */
  lemma Rival(a: Semver) returns (b: Semver)
    requires Legal(a) && !OrdinaryVersion(a)
    ensures OrdinaryVersion(b) && !Agree(a, b)
  {
    var xs := Split(a.pre, '.');
    var k := FirstOdd(xs);
    var ys := xs[..k] + ["-"];
    forall y | y in ys
      ensures '.' !in y && Ordinary(y)
    {
      assert y == "-" || exists j | 0 <= j < k :: y == xs[j] && xs[j] in xs;
    }
    SplitJoin(ys, '.');
    b := a.(pre := Join(ys, '.'));
    assert b.pre != "" by {
      assert Split("", '.') == [""];
      assert ys[k] == "-";
    }
    assert xs[k] in xs && LegalIdent(xs[k]);
    assert OrdinaryVersion(b);
    RivalDisagrees(a, b, xs, ys, k);
  }

  lemma RivalDisagrees(a: Semver, b: Semver, xs: seq<string>, ys: seq<string>, k: nat)
    requires a.pre != "" && b.pre != "" && b == a.(pre := b.pre)
    requires xs == Split(a.pre, '.') && ys == Split(b.pre, '.')
    requires k < |xs| && ys == xs[..k] + ["-"]
    requires LegalIdent(xs[k]) && !Ordinary(xs[k])
    ensures Compare(b, a) < 0 && !Precedes(b, a)
  {
    forall j | 0 <= j < k
      ensures CompareKey(Keys(b.pre)[j], Keys(a.pre)[j]) == 0
    {
      KeyLaws(Keys(b.pre)[j], Keys(a.pre)[j]);
    }
    CompareKeysFromPrefix(Keys(b.pre), Keys(a.pre), k);
    assert KeyOf("-") == Word("-");
    assert Keys(b.pre)[k] == Word("-") && Keys(a.pre)[k] == Word(xs[k]);
    assert CompareText("-", xs[k]) == -1;
    forall j: nat | j <= |ys| && j <= |xs| && ys[..j] == xs[..j]
      ensures !ListDiffersAt(ys, xs, j)
    {
      EqualPrefix(ys, xs, j);
    }
  }
}
