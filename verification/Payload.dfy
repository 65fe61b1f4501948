/**
  The offline copy of the protocol module (scripts/protocol-payload.py): `check` compares the latest
  version in the payload with the source tree, `bake` appends the tree as a new version.
 */
module Payload {
  import opened Options
  import opened Decimal
  import Sorting
  import Text

  type Bytes = string

  const MODULE_PATH := "github.com/tangwy-t/UniCenter/uni_protocol"

  /** The files in the source tree; `None` is a tracked file that is missing on disk. */
  datatype Tree = Tree(files: map<string, Option<Bytes>>, goMod: Option<Bytes>)

  datatype Entry = Entry(name: string, data: Bytes)

  /** The payload directory; `list` is the lines of that file. */
  datatype Dir = Dir(list: Option<seq<string>>, infos: map<string, string>, mods: map<string, Bytes>,
      zips: map<string, seq<Entry>>)

  datatype Outcome = Done(version: string) | Died | Raised

  // ----- versions -----

  datatype Key = Key(major: nat, minor: nat, patch: nat)

  predicate Numeral(s: string) {
    s != "" && AllDigits(s)
  }

  predicate IsVersion(v: string) {
    && v != "" && v[0] == 'v'
    && var p := Text.Split(v[1..], '.');
       |p| == 3 && Numeral(p[0]) && Numeral(p[1]) && Numeral(p[2])
  }

  /** `verkey`: leading zeros are accepted, so two versions can have the same key. */
  function VerKey(v: string): Key
    requires IsVersion(v)
  {
    var p := Text.Split(v[1..], '.');
    Key(Value(p[0]), Value(p[1]), Value(p[2]))
  }

  /** Python's order on tuples. */
  predicate Below(a: Key, b: Key) {
    a.major < b.major || (a.major == b.major && (a.minor < b.minor || (a.minor == b.minor && a.patch < b.patch)))
  }

  /** The first of the three numbers in which two keys differ decides. */
  lemma BelowIsPositional(a: Key, b: Key)
    ensures var x, y := [a.major, a.minor, a.patch], [b.major, b.minor, b.patch];
      Below(a, b) <==> exists i :: 0 <= i < 3 && x[i] < y[i] && x[..i] == y[..i]
  {
    var x, y := [a.major, a.minor, a.patch], [b.major, b.minor, b.patch];
    if a.major < b.major {
      assert x[0] < y[0] && x[..0] == y[..0];
    } else if a.major == b.major && a.minor < b.minor {
      assert x[1] < y[1] && x[..1] == y[..1];
    } else if a.major == b.major && a.minor == b.minor && a.patch < b.patch {
      assert x[2] < y[2] && x[..2] == y[..2];
    }
    forall i | 0 <= i < 3 && x[i] < y[i] && x[..i] == y[..i] ensures Below(a, b) {
      assert i > 0 ==> x[0] == x[..i][0] == y[..i][0] == y[0];
      assert i > 1 ==> x[1] == x[..i][1] == y[..i][1] == y[1];
    }
  }

  /** No listed version has a greater major number, with that major a greater minor, with both a greater patch. */
  ghost predicate NoneAbove(listed: set<string>, k: Key)
    requires forall w :: w in listed ==> IsVersion(w)
  {
    forall w :: w in listed ==>
      && VerKey(w).major <= k.major
      && (VerKey(w).major == k.major ==> VerKey(w).minor <= k.minor)
      && (VerKey(w).major == k.major && VerKey(w).minor == k.minor ==> VerKey(w).patch <= k.patch)
  }

  lemma JoinThree(a: string, b: string, c: string)
    ensures Text.Join([a, b, c], '.') == a + "." + b + "." + c
  {
    assert [a, b, c][1..] == [b, c] && [b, c][1..] == [c];
    assert Text.Join([b, c], '.') == b + ['.'] + c;
    assert a + ['.'] + (b + ['.'] + c) == a + "." + b + "." + c;
  }

  /** The texts that are versions, and their numbers: `v`, then three decimal numerals between dots. */
  lemma VersionText(v: string, a: string, b: string, c: string)
    requires Numeral(a) && Numeral(b) && Numeral(c) && v == "v" + a + "." + b + "." + c
    ensures IsVersion(v) && VerKey(v) == Key(Value(a), Value(b), Value(c))
  {
    hide Text.Split, Text.Join;
    var parts := [a, b, c];
    forall p | p in parts ensures '.' !in p {
      assert forall i :: 0 <= i < |p| ==> IsDigit(p[i]);
    }
    Text.SplitJoin(parts, '.');
    JoinThree(a, b, c);
    assert v[1..] == a + "." + b + "." + c;
    assert Text.Split(v[1..], '.') == [a, b, c];
  }

  lemma VersionHasText(v: string) returns (a: string, b: string, c: string)
    requires IsVersion(v)
    ensures Numeral(a) && Numeral(b) && Numeral(c) && v == "v" + a + "." + b + "." + c
  {
    hide Text.Split, Text.Join;
    var p := Text.Split(v[1..], '.');
    a, b, c := p[0], p[1], p[2];
    Text.JoinSplit(v[1..], '.');
    JoinThree(a, b, c);
    assert p == [a, b, c];
    assert v == "v" + v[1..] == "v" + (a + "." + b + "." + c);
  }

  function Written(k: Key): string {
    "v" + Text.Join([Format(k.major), Format(k.minor), Format(k.patch)], '.')
  }

  lemma WrittenKey(k: Key)
    ensures IsVersion(Written(k)) && VerKey(Written(k)) == k
  {
    var parts := [Format(k.major), Format(k.minor), Format(k.patch)];
    forall p | p in parts ensures '.' !in p {
      assert forall i :: 0 <= i < |p| ==> IsDigit(p[i]);
    }
    Text.SplitJoin(parts, '.');
    assert Written(k)[1..] == Text.Join(parts, '.');
    ValueOfFormat(k.major);
    ValueOfFormat(k.minor);
    ValueOfFormat(k.patch);
  }

  // ----- the list -----

  function Strip(s: string): string {
    if s == "" then ""
    else if Text.IsSpace(s[0]) then Strip(s[1..])
    else if Text.IsSpace(s[|s| - 1]) then Strip(s[..|s| - 1])
    else s
  }

  /** `strip` removes the white space at both ends and nothing else. */
  lemma {:induction false} StripTrims(s: string) returns (front: string, back: string)
    ensures s == front + Strip(s) + back
    ensures forall c :: c in front + back ==> Text.IsSpace(c)
    ensures Strip(s) != "" ==> !Text.IsSpace(Strip(s)[0]) && !Text.IsSpace(Strip(s)[|Strip(s)| - 1])
  {
    front, back := "", "";
    if s == "" {
    } else if Text.IsSpace(s[0]) {
      front, back := StripTrims(s[1..]);
      front := [s[0]] + front;
      assert s == [s[0]] + s[1..];
    } else if Text.IsSpace(s[|s| - 1]) {
      front, back := StripTrims(s[..|s| - 1]);
      back := back + [s[|s| - 1]];
      assert s == s[..|s| - 1] + [s[|s| - 1]];
    }
  }

  /** The versions a list names: its lines, stripped, without the blank ones. */
  function Versions(lines: seq<string>): set<string> {
    set line | line in lines && Strip(line) != "" :: Strip(line)
  }

  function Listed(d: Dir): set<string> {
    if d.list.Some? then Versions(d.list.value) else {}
  }

  /** `payload_versions` succeeds. */
  predicate Readable(d: Dir) {
    d.list.Some? && forall v :: v in Listed(d) ==> IsVersion(v)
  }

  function Elements(vs: seq<string>): set<string> {
    set v | v in vs
  }

  predicate Ascending(vs: seq<string>) {
    && (forall v :: v in vs ==> IsVersion(v))
    && forall i, j :: 0 <= i < j < |vs| ==> vs[i] != vs[j] && !Below(VerKey(vs[j]), VerKey(vs[i]))
  }

  /** A version that `sorted(...)[-1]` can yield; there are several only if keys coincide. */
  ghost predicate IsLatest(d: Dir, v: string) {
    Readable(d) && v in Listed(d) && forall w :: w in Listed(d) ==> !Below(VerKey(v), VerKey(w))
  }

  lemma VersionsStripped(v: string)
    requires IsVersion(v)
    ensures v != "" && Strip(v) == v
  {
    Text.JoinSplit(v[1..], '.');
    var p := Text.Split(v[1..], '.');
    assert p[1..][1..] == [p[2]];
    assert Text.Join(p[1..], '.') == p[1] + ['.'] + p[2];
    assert v[1..] == p[0] + ['.'] + Text.Join(p[1..], '.');
    assert v[|v| - 1] == p[2][|p[2]| - 1];
  }

  /** What `bake` writes is read back as it is. */
  lemma WrittenListReadBack(vs: seq<string>)
    requires Ascending(vs)
    ensures Versions(vs) == Elements(vs)
  {
    forall v | v in vs ensures v != "" && Strip(v) == v {
      VersionsStripped(v);
    }
    forall v | v in vs ensures v in Versions(vs) {
      assert Strip(v) == v;
    }
  }

  // ----- archives -----

  function Prefix(version: string): string {
    MODULE_PATH + "@" + version + "/"
  }

  predicate IsFolder(name: string) {
    name != "" && name[|name| - 1] == '/'
  }

  /** `zip_hashes`: by relative path; a foreign prefix is an error. */
  function ZipHashes(digest: Bytes -> string, zip: seq<Entry>, version: string): Option<map<string, string>> {
    if zip == [] then Some(map[])
    else
      var e := zip[|zip| - 1];
      var rest := ZipHashes(digest, zip[..|zip| - 1], version);
      if rest.None? || IsFolder(e.name) then rest
      else if Prefix(version) <= e.name then Some(rest.value[e.name[|Prefix(version)|..] := digest(e.data)])
      else None
  }

  /** An archive is read exactly if every file in it is under the module's path and version. */
  lemma {:induction false} ReadableZip(digest: Bytes -> string, zip: seq<Entry>, version: string)
    ensures ZipHashes(digest, zip, version).Some? <==>
      forall i :: 0 <= i < |zip| && (zip[i].name == "" || zip[i].name[|zip[i].name| - 1] != '/') ==>
        Prefix(version) <= zip[i].name
  {
    if zip != [] {
      hide Prefix;
      ReadableZip(digest, zip[..|zip| - 1], version);
      assert forall i :: 0 <= i < |zip| - 1 ==> zip[..|zip| - 1][i] == zip[i];
    }
  }

  /** What is read for a path is the digest of the last entry of that name. */
  lemma {:induction false} HashOf(digest: Bytes -> string, zip: seq<Entry>, version: string, rel: string, i: int)
    requires ZipHashes(digest, zip, version).Some? && IsLastOf(zip, Prefix(version) + rel, i)
    ensures var r := ZipHashes(digest, zip, version).value; rel in r && r[rel] == digest(zip[i].data)
  {
    hide Prefix;
    var front, e, prefix := zip[..|zip| - 1], zip[|zip| - 1], Prefix(version);
    if i < |front| {
      assert IsLastOf(front, prefix + rel, i);
      HashOf(digest, front, version, rel, i);
      assert prefix <= e.name ==> prefix + e.name[|prefix|..] == e.name;
    } else {
      assert e.name[|prefix|..] == rel;
    }
  }

  /** And only paths that have one are read. */
  lemma {:induction false} EntryOf(digest: Bytes -> string, zip: seq<Entry>, version: string, rel: string)
    requires var r := ZipHashes(digest, zip, version); r.Some? && rel in r.value
    ensures exists i :: IsLastOf(zip, Prefix(version) + rel, i)
  {
    var front, e, name := zip[..|zip| - 1], zip[|zip| - 1], Prefix(version) + rel;
    if e.name == name && !IsFolder(name) {
      assert IsLastOf(zip, name, |zip| - 1);
    } else {
      EntryOf(digest, front, version, rel);
      var i :| IsLastOf(front, name, i);
      assert IsLastOf(zip, name, i);
    }
  }

  /** Entry `i` is the last file of this name. */
  predicate IsLastOf(zip: seq<Entry>, name: string, i: int) {
    && 0 <= i < |zip| && zip[i].name == name && !IsFolder(name)
    && forall j :: i < j < |zip| ==> zip[j].name != name
  }

  function TreeHashes(digest: Bytes -> string, t: Tree): map<string, Option<string>> {
    map r | r in t.files :: if t.files[r].Some? then Some(digest(t.files[r].value)) else None
  }

  /** The archive holds the tree: the same paths, every file present and of the same digest. */
  ghost predicate Agrees(digest: Bytes -> string, zip: seq<Entry>, version: string, t: Tree) {
    var h := ZipHashes(digest, zip, version);
    && h.Some? && h.value.Keys == t.files.Keys
    && forall r :: r in t.files ==> t.files[r].Some? && h.value[r] == digest(t.files[r].value)
  }

  /** `check` returns success, whichever of several latest versions it looks at. */
  ghost predicate PassesCheck(digest: Bytes -> string, d: Dir, t: Tree) {
    && (exists v :: IsLatest(d, v))
    && forall v :: IsLatest(d, v) ==> v in d.zips && Agrees(digest, d.zips[v], v, t)
  }

  /** Nothing that belongs to a version named in `a` differs in `b`. */
  ghost predicate HistoryKept(a: Dir, b: Dir) {
    forall v :: v in Listed(a) ==>
      Lookup(a.infos, v) == Lookup(b.infos, v) && Lookup(a.mods, v) == Lookup(b.mods, v)
        && Lookup(a.zips, v) == Lookup(b.zips, v)
  }

  function Lookup<T>(m: map<string, T>, k: string): Option<T> {
    if k in m then Some(m[k]) else None
  }

  /** Paths in a source tree: files, not folders. */
  predicate FilePaths(t: Tree) {
    forall r :: r in t.files ==> r != "" && !IsFolder(r)
  }

  predicate Complete(t: Tree) {
    t.goMod.Some? && forall r :: r in t.files ==> t.files[r].Some?
  }

  /** `bake` gives up before it writes anything. */
  predicate Refuses(d: Dir, explicit: string) {
    !Readable(d) || (if explicit != "" then !IsVersion(explicit) || explicit in Listed(d) else Listed(d) == {})
  }

  /** A version above every listed one. */
  ghost predicate Newest(d: Dir, version: string) {
    Readable(d) && IsVersion(version) && forall w :: w in Listed(d) ==> Below(VerKey(w), VerKey(version))
  }

  /** One write of `bake` below the list: a file with its content, or one entry of an archive. */
  datatype Write =
    | PutInfo(v: string, text: string) | PutMod(v: string, data: Bytes)
    | NewZip(v: string) | AddEntry(v: string, e: Entry)

  function Perform(d: Dir, w: Write): Dir {
    match w
    case PutInfo(v, text) => d.(infos := d.infos[v := text])
    case PutMod(v, data) => d.(mods := d.mods[v := data])
    case NewZip(v) => d.(zips := d.zips[v := []])
    case AddEntry(v, e) => d.(zips := d.zips[v := (if v in d.zips then d.zips[v] else []) + [e]])
  }

  function Performed(d: Dir, ws: seq<Write>): Dir {
    if ws == [] then d else Perform(Performed(d, ws[..|ws| - 1]), ws[|ws| - 1])
  }

  lemma PerformedNext(d: Dir, ws: seq<Write>, w: Write)
    ensures Performed(d, ws + [w]) == Perform(Performed(d, ws), w)
  {
    assert (ws + [w])[..|ws|] == ws;
  }

  predicate About(ws: seq<Write>, version: string) {
    forall i :: 0 <= i < |ws| ==> ws[i].v == version
  }

  /** Writes of a new version harm nothing, wherever they are interrupted. */
  lemma {:induction false} WritesUnharmed(d: Dir, ws: seq<Write>, version: string)
    requires About(ws, version) && version !in Listed(d)
    ensures Unharmed(d, Performed(d, ws))
  {
    hide Listed;
    if ws != [] {
      var front := ws[..|ws| - 1];
      WritesUnharmed(d, front, version);
      assert forall v :: v in Listed(d) ==> v != version;
    }
  }

  /** The same list and the same files of every listed version. */
  ghost predicate Unharmed(a: Dir, b: Dir) {
    a.list == b.list && HistoryKept(a, b)
  }

  /** Then `check` sees no difference. */
  lemma UnharmedChecks(digest: Bytes -> string, a: Dir, b: Dir, t: Tree)
    requires Unharmed(a, b)
    ensures PassesCheck(digest, a, t) <==> PassesCheck(digest, b, t)
  {
    hide Agrees, IsVersion, Versions;
    forall v ensures IsLatest(a, v) <==> IsLatest(b, v) {
    }
    forall v | IsLatest(a, v) ensures Lookup(a.zips, v) == Lookup(b.zips, v) {
    }
  }

  /**
    But the list itself is rewritten in place. Cut short after `k` of its lines, it makes `check` look
    at the last of them; cut to nothing, or inside a line so that no version is left, it fails.
   */
  lemma TornList(digest: Bytes -> string, d: Dir, vs: seq<string>, k: nat, t: Tree)
    requires Ascending(vs) && k <= |vs|
    ensures var torn := d.(list := Some(vs[..k]));
      if k == 0 then !PassesCheck(digest, torn, t)
      else
        var last := vs[k - 1];
        && IsLatest(torn, last)
        && (PassesCheck(digest, torn, t) ==> last in d.zips && Agrees(digest, d.zips[last], last, t))
        && ((forall i :: 0 <= i < k - 1 ==> Below(VerKey(vs[i]), VerKey(last))) ==>
              (PassesCheck(digest, torn, t) <==> last in d.zips && Agrees(digest, d.zips[last], last, t)))
  {
    hide Agrees, IsLatest, Listed, IsVersion, VerKey, Below;
    var torn := d.(list := Some(vs[..k]));
    if k == 0 {
      NothingListed(torn);
    } else {
      LastLine(d, vs, k);
    }
  }

  lemma NothingListed(d: Dir)
    requires d.list == Some([])
    ensures forall v :: !IsLatest(d, v)
  {
    assert Listed(d) == {};
  }

  lemma LastLine(d: Dir, vs: seq<string>, k: nat)
    requires Ascending(vs) && 0 < k <= |vs|
    ensures var torn, last := d.(list := Some(vs[..k])), vs[k - 1];
      && IsLatest(torn, last)
      && ((forall i :: 0 <= i < k - 1 ==> Below(VerKey(vs[i]), VerKey(last))) ==>
            forall v :: IsLatest(torn, v) <==> v == last)
  {
    var torn, last := d.(list := Some(vs[..k])), vs[k - 1];
    hide IsVersion, Versions, VerKey, Below, Listed, Elements;
    Irreflexive(VerKey(last));
    TornLists(d, vs, k, last);
    AgainstLast(vs, k, last);
    if forall i :: 0 <= i < k - 1 ==> Below(VerKey(vs[i]), VerKey(last)) {
      forall v | v in Elements(vs[..k]) && v != last ensures Below(VerKey(v), VerKey(last)) {
        NotTheLast(vs, k, v);
      }
    }
  }

  lemma NotTheLast(vs: seq<string>, k: nat, v: string)
    requires Ascending(vs) && 0 < k <= |vs| && v in Elements(vs[..k]) && v != vs[k - 1]
    ensures exists i :: 0 <= i < k - 1 && vs[i] == v
  {
    hide IsVersion, VerKey, Below;
    var i :| 0 <= i < k && vs[..k][i] == v;
    assert vs[i] == v;
  }

  lemma Irreflexive(a: Key)
    ensures !Below(a, a)
  {
  }

  lemma TornLine(digest: Bytes -> string, d: Dir, lines: seq<string>, line: string, t: Tree)
    requires Strip(line) != "" && !IsVersion(Strip(line))
    ensures !PassesCheck(digest, d.(list := Some(lines + [line])), t)
  {
    hide Agrees, IsVersion, Strip;
    var torn := d.(list := Some(lines + [line]));
    assert line in lines + [line];
    assert Strip(line) in Listed(torn);
  }

  /**
    A last line `p` torn so that a version is left, such as `v1.2.1` of `v1.2.10`: `check` looks at `p`
    if it is above the lines before it, at what it would look at without it if it is below the line
    before it, and at either if the keys are equal.
   */
  lemma TornVersion(digest: Bytes -> string, d: Dir, vs: seq<string>, k: nat, p: string, t: Tree)
    requires Ascending(vs) && k <= |vs| && IsVersion(p)
    ensures var cut, torn := d.(list := Some(vs[..k])), d.(list := Some(vs[..k] + [p]));
      var agrees := p in d.zips && Agrees(digest, d.zips[p], p, t);
      PassesCheck(digest, torn, t) <==>
        if k == 0 || Below(VerKey(vs[k - 1]), VerKey(p)) then agrees
        else if Below(VerKey(p), VerKey(vs[k - 1])) then PassesCheck(digest, cut, t)
        else agrees && PassesCheck(digest, cut, t)
  {
    hide Agrees, IsVersion, VerKey, Below, Listed, IsLatest;
    var cut, torn := d.(list := Some(vs[..k])), d.(list := Some(vs[..k] + [p]));
    forall v ensures IsLatest(torn, v) <==> LatestWith(cut, vs, k, p, v) {
      TornLatest(d, vs, k, p, v);
    }
    if k == 0 || Below(VerKey(vs[k - 1]), VerKey(p)) {
      assert IsLatest(torn, p);
    } else {
      LastLine(d, vs, k);
      assert IsLatest(cut, vs[k - 1]) && IsLatest(torn, vs[k - 1]);
    }
  }

  /** The versions that are latest once the line `p` follows. */
  ghost predicate LatestWith(cut: Dir, vs: seq<string>, k: nat, p: string, v: string)
    requires k <= |vs| && IsVersion(p) && (k > 0 ==> IsVersion(vs[k - 1]))
  {
    if k == 0 || Below(VerKey(vs[k - 1]), VerKey(p)) then v == p
    else if Below(VerKey(p), VerKey(vs[k - 1])) then IsLatest(cut, v)
    else v == p || IsLatest(cut, v)
  }

  lemma TornLatest(d: Dir, vs: seq<string>, k: nat, p: string, v: string)
    requires Ascending(vs) && k <= |vs| && IsVersion(p)
    ensures k > 0 ==> IsVersion(vs[k - 1])
    ensures IsLatest(d.(list := Some(vs[..k] + [p])), v) <==> LatestWith(d.(list := Some(vs[..k])), vs, k, p, v)
  {
    var cut, torn := d.(list := Some(vs[..k])), d.(list := Some(vs[..k] + [p]));
    TornLists(d, vs, k, p);
    hide IsVersion, VerKey, Versions, Listed, Below, IsLatest, Elements;
    if k == 0 {
      NewestIsLatest(cut, torn, p, v);
    } else {
      AgainstLast(vs, k, p);
      hide Ascending;
      var last := vs[k - 1];
      if Below(VerKey(last), VerKey(p)) {
        NewestIsLatest(cut, torn, p, v);
      } else if Below(VerKey(p), VerKey(last)) {
        OlderIsNotLatest(cut, torn, p, last, v);
      } else {
        TieIsLatest(cut, torn, p, last, v);
      }
    }
  }

  /** In an ascending list it is enough to compare with the last line. */
  lemma AgainstLast(vs: seq<string>, k: nat, p: string)
    requires Ascending(vs) && 0 < k <= |vs| && IsVersion(p)
    ensures IsVersion(vs[k - 1]) && vs[k - 1] in Elements(vs[..k])
    ensures forall w :: w in Elements(vs[..k]) ==> IsVersion(w)
    ensures Below(VerKey(vs[k - 1]), VerKey(p)) ==> forall w :: w in Elements(vs[..k]) ==> Below(VerKey(w), VerKey(p))
    ensures !Below(VerKey(p), VerKey(vs[k - 1])) ==> forall w :: w in Elements(vs[..k]) ==> !Below(VerKey(p), VerKey(w))
  {
    hide IsVersion, VerKey, Below;
    assert vs[..k][k - 1] == vs[k - 1];
    forall w | w in Elements(vs[..k])
      ensures IsVersion(w)
      ensures Below(VerKey(vs[k - 1]), VerKey(p)) ==> Below(VerKey(w), VerKey(p))
      ensures !Below(VerKey(p), VerKey(vs[k - 1])) ==> !Below(VerKey(p), VerKey(w))
    {
      Irreflexive(VerKey(w));
      if !Below(VerKey(p), VerKey(vs[k - 1])) {
        Transitive(VerKey(p), VerKey(vs[k - 1]), VerKey(w));
      }
      if !Below(VerKey(w), VerKey(p)) {
        Transitive(VerKey(vs[k - 1]), VerKey(w), VerKey(p));
      }
    }
  }

  lemma TornLists(d: Dir, vs: seq<string>, k: nat, p: string)
    requires Ascending(vs) && k <= |vs| && IsVersion(p)
    ensures var cut, torn := d.(list := Some(vs[..k])), d.(list := Some(vs[..k] + [p]));
      && Readable(cut) && Readable(torn)
      && Listed(cut) == Elements(vs[..k]) && Listed(torn) == Listed(cut) + {p}
  {
    WrittenListReadBack(vs[..k]);
    VersionsStripped(p);
    hide IsVersion, Strip, VerKey, Below;
    var lines := vs[..k] + [p];
    assert lines[k] == p;
    forall line | line in vs[..k] ensures line in lines {
    }
    assert Versions(lines) == Versions(vs[..k]) + {p};
  }

  lemma SameList(a: Dir, b: Dir)
    requires a.list == b.list
    ensures Listed(a) == Listed(b) && Readable(a) == Readable(b)
  {
  }

  /** A newest version is what `check` looks at. */
  lemma NewestIsChecked(digest: Bytes -> string, a: Dir, b: Dir, version: string, t: Tree)
    requires Newest(a, version) && Appended(a, b, version) && version in b.zips
    ensures PassesCheck(digest, b, t) <==> Agrees(digest, b.zips[version], version, t)
  {
    hide Agrees, Newest, IsLatest;
    forall v ensures IsLatest(b, v) <==> v == version {
      NewestIsLatest(a, b, version, v);
    }
    assert IsLatest(b, version);
  }

  /** Appending a version below a listed one does not change what `check` says. */
  lemma OlderIsNotChecked(digest: Bytes -> string, a: Dir, b: Dir, version: string, w: string, t: Tree)
    requires Readable(a) && Appended(a, b, version) && IsVersion(version)
    requires w in Listed(a) && Below(VerKey(version), VerKey(w))
    ensures PassesCheck(digest, b, t) <==> PassesCheck(digest, a, t)
  {
    hide Agrees, IsVersion, VerKey, Below, Listed, Ascending;
    forall v ensures IsLatest(b, v) <==> IsLatest(a, v) {
      OlderIsNotLatest(a, b, version, w, v);
    }
    forall v | IsLatest(a, v) ensures Lookup(a.zips, v) == Lookup(b.zips, v) {
    }
    hide IsLatest, HistoryKept;
  }

  /** Appending a version whose key is that of the latest one does not change it either. */
  lemma TieIsChecked(digest: Bytes -> string, a: Dir, b: Dir, version: string, w: string, t: Tree)
    requires Readable(a) && Appended(a, b, version) && IsVersion(version)
    requires version in b.zips && Agrees(digest, b.zips[version], version, t)
    requires w in Listed(a) && !Below(VerKey(w), VerKey(version))
    requires forall u :: u in Listed(a) ==> !Below(VerKey(version), VerKey(u))
    ensures PassesCheck(digest, b, t) <==> PassesCheck(digest, a, t)
  {
    hide Agrees, IsVersion, VerKey, Below, Listed, Ascending;
    forall v ensures IsLatest(b, v) <==> v == version || IsLatest(a, v) {
      TieIsLatest(a, b, version, w, v);
    }
    forall v | IsLatest(a, v) ensures Lookup(a.zips, v) == Lookup(b.zips, v) {
    }
    TieIsLatest(a, b, version, w, w);
    assert IsLatest(a, w);
    hide IsLatest, HistoryKept;
  }

  lemma TieIsLatest(a: Dir, b: Dir, version: string, w: string, v: string)
    requires Readable(a) && Readable(b) && IsVersion(version) && Listed(b) == Listed(a) + {version}
    requires w in Listed(a) && !Below(VerKey(w), VerKey(version))
    requires forall u :: u in Listed(a) ==> !Below(VerKey(version), VerKey(u))
    ensures IsLatest(b, v) <==> v == version || IsLatest(a, v)
    ensures IsLatest(a, w)
  {
    hide IsVersion, VerKey, Versions, Listed, Below;
    Irreflexive(VerKey(version));
    if IsLatest(a, v) {
      Transitive(VerKey(v), VerKey(w), VerKey(version));
    }
    forall u | u in Listed(a) ensures !Below(VerKey(w), VerKey(u)) {
      Transitive(VerKey(w), VerKey(version), VerKey(u));
    }
  }

  /** The verdict of `check` on the tree just baked: it succeeds unless an older verdict stands and was negative. */
  lemma BakedVerdict(digest: Bytes -> string, a: Dir, b: Dir, version: string, t: Tree)
    requires Readable(a) && Appended(a, b, version) && IsVersion(version)
    requires version in b.zips && Agrees(digest, b.zips[version], version, t)
    ensures PassesCheck(digest, b, t) <==> Newest(a, version) || PassesCheck(digest, a, t)
  {
    hide Agrees, IsVersion, VerKey, Below, Listed, Ascending, PassesCheck, IsLatest, Appended, HistoryKept;
    if Newest(a, version) {
      NewestIsChecked(digest, a, b, version, t);
    } else if w :| w in Listed(a) && Below(VerKey(version), VerKey(w)) {
      OlderIsNotChecked(digest, a, b, version, w, t);
    } else {
      var w :| w in Listed(a) && !Below(VerKey(w), VerKey(version));
      TieIsChecked(digest, a, b, version, w, t);
    }
  }

  /** Such ties exist: a leading zero makes another version of the same key. */
  lemma {:induction false} ZeroInFront(s: string)
    requires AllDigits(s)
    ensures AllDigits("0" + s) && Value("0" + s) == Value(s)
  {
    if s == "" {
      assert ("0" + s)[..0] == "";
    } else {
      ZeroInFront(s[..|s| - 1]);
      assert ("0" + s)[..|s|] == "0" + s[..|s| - 1];
    }
  }

  lemma Twin(k: Key)
    ensures var v, w := Written(k), "v0" + Written(k)[1..];
      v != w && IsVersion(v) && IsVersion(w) && VerKey(v) == VerKey(w) == k
  {
    WrittenKey(k);
    ZeroInFront(Format(k.major));
    var parts := ["0" + Format(k.major), Format(k.minor), Format(k.patch)];
    forall p | p in parts ensures '.' !in p {
      assert forall i :: 0 <= i < |p| ==> IsDigit(p[i]);
    }
    Text.SplitJoin(parts, '.');
    var w := "v0" + Written(k)[1..];
    assert parts[1..] == [Format(k.major), Format(k.minor), Format(k.patch)][1..];
    assert w[1..] == Text.Join(parts, '.');
    ValueOfFormat(k.major);
    ValueOfFormat(k.minor);
    ValueOfFormat(k.patch);
  }

  /** Listed together, both are the latest. */
  lemma TwoLatest(d: Dir, k: Key)
    ensures var v, w := Written(k), "v0" + Written(k)[1..];
      var both := d.(list := Some([v, w]));
      v != w && IsLatest(both, v) && IsLatest(both, w)
  {
    Twin(k);
    var v, w := Written(k), "v0" + Written(k)[1..];
    hide Written, IsVersion, VerKey, Below, Strip;
    Irreflexive(k);
    VersionsStripped(v);
    VersionsStripped(w);
    var both := d.(list := Some([v, w]));
    assert Listed(both) == {v, w} by {
      assert v in [v, w] && w in [v, w];
      assert Strip(v) in Listed(both) && Strip(w) in Listed(both);
    }
  }

  lemma NewestIsLatest(a: Dir, b: Dir, version: string, v: string)
    requires Newest(a, version) && Readable(b) && Listed(b) == Listed(a) + {version}
    ensures IsLatest(b, v) <==> v == version
  {
    hide IsVersion, VerKey, Versions, Listed;
    forall w | w in Listed(a) ensures !Below(VerKey(version), VerKey(w)) {
      Asymmetric(VerKey(w), VerKey(version));
    }
    assert !Below(VerKey(version), VerKey(version));
  }

  lemma OlderIsNotLatest(a: Dir, b: Dir, version: string, w: string, v: string)
    requires Readable(a) && Readable(b) && Listed(b) == Listed(a) + {version}
    requires w in Listed(a) && Below(VerKey(version), VerKey(w))
    ensures IsLatest(b, v) <==> IsLatest(a, v)
  {
    hide IsVersion, VerKey, Versions, Listed, Below;
    if v in Listed(b) {
      BelowTransitive(VerKey(v), VerKey(version), VerKey(w));
    }
  }

  lemma BelowTransitive(a: Key, b: Key, c: Key)
    ensures Below(a, b) && Below(b, c) ==> Below(a, c)
  {
  }

  /** The version of a default bake: the numbers of the latest listed one, and the patch after it. */
  ghost predicate FollowsLatest(listed: set<string>, version: string)
    requires forall w :: w in listed ==> IsVersion(w)
  {
    exists latest :: latest in listed && NoneAbove(listed, VerKey(latest)) &&
      var k := VerKey(latest);
      version == "v" + Format(k.major) + "." + Format(k.minor) + "." + Format(k.patch + 1)
  }

  lemma WrittenText(k: Key)
    ensures Written(k) == "v" + Format(k.major) + "." + Format(k.minor) + "." + Format(k.patch)
  {
    hide Format, Text.Join;
    var a, b, c := Format(k.major), Format(k.minor), Format(k.patch);
    JoinThree(a, b, c);
    assert "v" + (a + "." + b + "." + c) == "v" + a + "." + b + "." + c;
  }

  class Payload {
    const digest: Bytes -> string
    var dir: Dir

    constructor (digest: Bytes -> string, dir: Dir)
      ensures this.digest == digest && this.dir == dir
    {
      this.digest := digest;
      this.dir := dir;
    }

    /** `payload_versions`: fails without a list and on a line that is no version. */
    method PayloadVersions() returns (r: Option<seq<string>>)
      ensures r.Some? <==> Readable(dir)
      ensures r.Some? ==> Ascending(r.value) && Elements(r.value) == Listed(dir)
    {
      if dir.list.None? {
        return None;
      }
      hide VerKey, IsVersion, Below, Versions, Strip;
      var names := Versions(dir.list.value);
      var vs: seq<string> := [];
      var rest := names;
      while rest != {}
        invariant rest <= names && Ascending(vs) && Elements(vs) == names - rest
        decreases |rest|
      {
        var v :| v in rest;
        if !IsVersion(v) {
          return None;
        }
        rest := rest - {v};
        vs := InsertByKey(vs, v);
      }
      r := Some(vs);
      assert forall v :: v in Elements(vs) ==> v in vs;
    }

    /** `latest_version`. */
    method LatestVersion() returns (r: Option<string>)
      ensures r.Some? <==> Readable(dir) && Listed(dir) != {}
      ensures r.Some? ==> IsLatest(dir, r.value)
      ensures r.Some? ==> NoneAbove(Listed(dir), VerKey(r.value))
    {
      var vs := PayloadVersions();
      if vs.None? || vs.value == [] {
        return None;
      }
      var last := vs.value[|vs.value| - 1];
      assert last in Elements(vs.value);
      forall w | w in Listed(dir) ensures !Below(VerKey(last), VerKey(w)) {
        assert w in Elements(vs.value);
      }
      r := Some(last);
    }

    /** `cmd_check`. */
    method Check(t: Tree) returns (ok: bool)
      ensures PassesCheck(digest, dir, t) ==> ok
      ensures ok ==> Readable(dir) && exists v ::
        && IsLatest(dir, v) && NoneAbove(Listed(dir), VerKey(v))
        && v in dir.zips && Agrees(digest, dir.zips[v], v, t)
    {
      var version := LatestVersion();
      if version.None? || version.value !in dir.zips {
        return false;
      }
      var payload := ZipHashes(digest, dir.zips[version.value], version.value);
      if payload.None? {
        return false;
      }
      ok := SameHashes(payload.value, TreeHashes(digest, t));
      SameHashesAgree(digest, dir.zips[version.value], version.value, t);
    }

    /**
      `cmd_bake`: without an explicit version the next patch after the latest. `writes` are the writes
      that come before the list is rewritten; wherever they break off, the history is unharmed.
     */
    method Bake(explicit: string, t: Tree, info: string) returns (r: Outcome, ghost writes: seq<Write>)
      modifies this
      ensures r.Died? <==> Refuses(old(dir), explicit)
      ensures r.Died? ==> dir == old(dir) && writes == []
      ensures r.Raised? <==> !Refuses(old(dir), explicit) && !Complete(t)
      ensures r.Raised? ==> dir == Performed(old(dir), writes)
      ensures r.Done? ==> dir == Performed(old(dir), writes).(list := dir.list)
      ensures forall i :: 0 <= i <= |writes| ==> Unharmed(old(dir), Performed(old(dir), writes[..i]))
      ensures r.Done? ==>
        && Appended(old(dir), dir, r.version)
        && (if explicit != "" then r.version == explicit
            else Newest(old(dir), r.version) && Readable(old(dir)) && FollowsLatest(Listed(old(dir)), r.version))
      ensures r.Done? ==> Lookup(dir.infos, r.version) == Some(info) && Lookup(dir.mods, r.version) == t.goMod
      ensures r.Done? ==> r.version in dir.zips && Archive(dir.zips[r.version], r.version, t)
      ensures r.Done? && FilePaths(t) ==> r.version in dir.zips && Agrees(digest, dir.zips[r.version], r.version, t)
      ensures r.Done? && FilePaths(t) ==>
        (PassesCheck(digest, dir, t) <==> Newest(old(dir), r.version) || PassesCheck(digest, old(dir), t))
    {
      hide IsVersion, Versions, VerKey, Listed, Readable, Agrees, PassesCheck, Newest, FilePaths, Performed,
        Unharmed, Archive, FollowsLatest;
      writes := [];
      var version := ChooseVersion(explicit);
      if version.None? {
        NothingWritten(dir);
        return Died, [];
      }
      var done;
      done, writes := WriteFiles(version.value, t, info);
      forall i | 0 <= i <= |writes| ensures Unharmed(old(dir), Performed(old(dir), writes[..i])) {
        WritesUnharmed(old(dir), writes[..i], version.value);
      }
      if !done {
        return Raised, writes;
      }
      assert writes[..|writes|] == writes;
      SameUnharmed(old(dir), dir);
      label Files:
      WriteList(version.value);
      AppendedAfter(old(dir), old@Files(dir), dir, version.value);
      if FilePaths(t) {
        BakedVerdict(digest, old(dir), dir, version.value, t);
      }
      r := Done(version.value);
    }

    method ChooseVersion(explicit: string) returns (r: Option<string>)
      ensures r.None? <==> Refuses(dir, explicit)
      ensures r.Some? ==>
        && Readable(dir) && IsVersion(r.value) && r.value !in Listed(dir)
        && (if explicit != "" then r.value == explicit
            else Newest(dir, r.value) && FollowsLatest(Listed(dir), r.value))
    {
      if explicit != "" {
        if !IsVersion(explicit) {
          return None;
        }
        var vs := PayloadVersions();
        if vs.None? || explicit in vs.value {
          return None;
        }
        return Some(explicit);
      }
      var latest := LatestVersion();
      if latest.None? {
        return None;
      }
      var k := VerKey(latest.value);
      r := Some("v" + Format(k.major) + "." + Format(k.minor) + "." + Format(k.patch + 1));
      WrittenText(Key(k.major, k.minor, k.patch + 1));
      NextPatchIsNewest(dir, latest.value);
    }

    /** One write. */
    method Do(w: Write)
      modifies this`dir
      ensures dir == Perform(old(dir), w)
    {
      match w
      case PutInfo(v, text) => dir := dir.(infos := dir.infos[v := text]);
      case PutMod(v, data) => dir := dir.(mods := dir.mods[v := data]);
      case NewZip(v) => dir := dir.(zips := dir.zips[v := []]);
      case AddEntry(v, e) => dir := dir.(zips := dir.zips[v := (if v in dir.zips then dir.zips[v] else []) + [e]]);
    }

    /** The files of the new version, in order: `.info`, `.mod`, `.zip`. A missing source file raises. */
    method WriteFiles(version: string, t: Tree, info: string) returns (done: bool, ghost writes: seq<Write>)
      modifies this
      ensures done <==> Complete(t)
      ensures dir == Performed(old(dir), writes) && About(writes, version)
      ensures done ==>
        && Lookup(dir.infos, version) == Some(info) && Lookup(dir.mods, version) == t.goMod
        && version in dir.zips
      ensures done ==> Archive(dir.zips[version], version, t)
      ensures done && FilePaths(t) ==> Agrees(digest, dir.zips[version], version, t)
    {
      hide Agrees, FilePaths, Performed, Archive;
      NothingWritten(dir);
      writes := [PutInfo(version, info)];
      PerformedNext(dir, [], PutInfo(version, info));
      assert [] + [PutInfo(version, info)] == writes;
      Do(PutInfo(version, info));
      if t.goMod.None? {
        return false, writes;
      }
      PerformedNext(old(dir), writes, PutMod(version, t.goMod.value));
      Do(PutMod(version, t.goMod.value));
      writes := writes + [PutMod(version, t.goMod.value)];
      done, writes := WriteZip(version, t, old(dir), writes);
    }

    method WriteZip(version: string, t: Tree, ghost start: Dir, ghost before: seq<Write>)
        returns (done: bool, ghost writes: seq<Write>)
      requires dir == Performed(start, before) && About(before, version)
      modifies this
      ensures done <==> forall r :: r in t.files ==> t.files[r].Some?
      ensures dir == Performed(start, writes) && About(writes, version)
      ensures dir == old(dir).(zips := dir.zips) && version in dir.zips
      ensures done ==> Archive(dir.zips[version], version, t)
      ensures done && FilePaths(t) ==> Agrees(digest, dir.zips[version], version, t)
    {
      hide Prefix, Agrees, FilePaths, Performed, Archive;
      var files := SortedPaths(t);
      PerformedNext(start, before, NewZip(version));
      Do(NewZip(version));
      writes := before + [NewZip(version)];
      for i := 0 to |files|
        invariant dir == old(dir).(zips := dir.zips) && version in dir.zips
          && dir.zips[version] == Packed(t, version, files[..i])
        invariant forall k :: 0 <= k < i ==> t.files[files[k]].Some?
        invariant dir == Performed(start, writes) && About(writes, version)
      {
        var rel := files[i];
        assert files[..i + 1][..i] == files[..i];
        if t.files[rel].None? {
          return false, writes;
        }
        var w := AddEntry(version, Entry(Prefix(version) + rel, t.files[rel].value));
        PerformedNext(start, writes, w);
        Do(w);
        writes := writes + [w];
      }
      assert files[..|files|] == files;
      PackedArchive(t, version, files);
      if FilePaths(t) {
        PackedAgrees(digest, t, version, files);
      }
      done := true;
    }

    method WriteList(version: string)
      requires Readable(dir) && IsVersion(version) && version !in Listed(dir)
      modifies this
      ensures Appended(old(dir), dir, version) && dir == old(dir).(list := dir.list)
    {
      hide IsVersion, Versions, VerKey;
      var vs := PayloadVersions();
      assert version !in vs.value by {
        assert version !in Elements(vs.value);
      }
      var sorted := InsertByKey(vs.value, version);
      WrittenListReadBack(sorted);
      dir := dir.(list := Some(sorted));
    }
  }

  /** One more version in an ascending list; nothing of the others has changed. */
  ghost predicate Appended(a: Dir, b: Dir, version: string) {
    && Readable(b) && version !in Listed(a) && Listed(b) == Listed(a) + {version}
    && Ascending(b.list.value) && HistoryKept(a, b)
  }

  lemma AppendedAfter(a: Dir, b: Dir, c: Dir, version: string)
    requires Unharmed(a, b) && Appended(b, c, version)
    ensures Appended(a, c, version)
  {
    SameList(a, b);
    hide Listed, Ascending, Readable;
  }

  lemma NothingWritten(d: Dir)
    ensures Performed(d, []) == d && Unharmed(d, Performed(d, []))
  {
  }

  lemma SameUnharmed(a: Dir, b: Dir)
    requires Unharmed(a, b)
    ensures Listed(a) == Listed(b) && Readable(a) == Readable(b)
  {
    SameList(a, b);
  }

  lemma NextPatchIsNewest(d: Dir, latest: string)
    requires IsLatest(d, latest)
    ensures var k := VerKey(latest); var v := Written(Key(k.major, k.minor, k.patch + 1));
      Newest(d, v) && v !in Listed(d)
  {
    hide IsVersion, VerKey, Versions, Listed, Written;
    var k := VerKey(latest);
    var v := Written(Key(k.major, k.minor, k.patch + 1));
    WrittenKey(Key(k.major, k.minor, k.patch + 1));
    forall w | w in Listed(d) ensures Below(VerKey(w), VerKey(v)) {
    }
  }

  /** The entries of the archive for these paths. */
  function Packed(t: Tree, version: string, paths: seq<string>): seq<Entry>
    requires forall r :: r in paths ==> r in t.files
  {
    if paths == [] then []
    else
      var rel := paths[|paths| - 1];
      Packed(t, version, paths[..|paths| - 1])
      + (if t.files[rel].Some? then [Entry(Prefix(version) + rel, t.files[rel].value)] else [])
  }

  /** One entry for every file of the tree, under the module's path and version, in the order of the paths. */
  ghost predicate Archive(zip: seq<Entry>, version: string, t: Tree) {
    exists paths: seq<string> :: Sorting.Sorted(paths) && (forall r :: r in paths <==> r in t.files)
      && Holds(zip, version, t, paths)
  }

  predicate Holds(zip: seq<Entry>, version: string, t: Tree, paths: seq<string>)
    requires forall r :: r in paths ==> r in t.files
  {
    && |zip| == |paths|
    && forall i :: 0 <= i < |paths| ==>
         && zip[i].name == "github.com/tangwy-t/UniCenter/uni_protocol@" + version + "/" + paths[i]
         && Some(zip[i].data) == t.files[paths[i]]
  }

  lemma {:induction false} PackedHolds(t: Tree, version: string, paths: seq<string>)
    requires forall r :: r in paths ==> r in t.files && t.files[r].Some?
    ensures Holds(Packed(t, version, paths), version, t, paths)
  {
    if paths != [] {
      PackedHolds(t, version, paths[..|paths| - 1]);
    }
  }

  lemma PackedArchive(t: Tree, version: string, paths: seq<string>)
    requires Sorting.Sorted(paths) && (forall r :: r in paths <==> r in t.files)
      && forall r :: r in t.files ==> t.files[r].Some?
    ensures Archive(Packed(t, version, paths), version, t)
  {
    PackedHolds(t, version, paths);
  }

  lemma {:induction false} PackedHashes(digest: Bytes -> string, t: Tree, version: string, paths: seq<string>)
    requires FilePaths(t) && forall r :: r in paths ==> r in t.files && t.files[r].Some?
    ensures ZipHashes(digest, Packed(t, version, paths), version)
      == Some(map r | r in paths :: digest(t.files[r].value))
  {
    hide Prefix;
    if paths != [] {
      var front, rel := paths[..|paths| - 1], paths[|paths| - 1];
      PackedHashes(digest, t, version, front);
      var zip, e := Packed(t, version, front), Entry(Prefix(version) + rel, t.files[rel].value);
      assert Packed(t, version, paths) == zip + [e] && (zip + [e])[..|zip|] == zip;
      assert e.name[|Prefix(version)|..] == rel && !IsFolder(e.name);
      assert paths == front + [rel];
      assert (map r | r in front :: digest(t.files[r].value))[rel := digest(t.files[rel].value)]
        == map r | r in paths :: digest(t.files[r].value);
    }
  }

  lemma PackedAgrees(digest: Bytes -> string, t: Tree, version: string, paths: seq<string>)
    requires FilePaths(t) && (forall r :: r in paths <==> r in t.files) && forall r :: r in t.files ==> t.files[r].Some?
    ensures Agrees(digest, Packed(t, version, paths), version, t)
  {
    PackedHashes(digest, t, version, paths);
  }

  /** `worktree_files`. */
  method SortedPaths(t: Tree) returns (files: seq<string>)
    ensures Sorting.Sorted(files) && forall r :: r in files <==> r in t.files
  {
    var paths: seq<string>, rest := [], t.files.Keys;
    while rest != {}
      invariant rest <= t.files.Keys && forall r :: r in paths <==> r in t.files && r !in rest
      decreases |rest|
    {
      var r :| r in rest;
      rest := rest - {r};
      paths := paths + [r];
    }
    files := Sorting.SortStrings(paths);
    forall r ensures r in files <==> r in paths {
      assert r in files <==> r in multiset(files);
    }
  }

  lemma SameHashesAgree(digest: Bytes -> string, zip: seq<Entry>, version: string, t: Tree)
    ensures var h, w := ZipHashes(digest, zip, version), TreeHashes(digest, t);
      Agrees(digest, zip, version, t) <==>
        && h.Some? && h.value.Keys == w.Keys
        && forall r :: r in w ==> Some(h.value[r]) == w[r]
  {
    hide ZipHashes;
    var w := TreeHashes(digest, t);
    assert forall r :: r in w <==> r in t.files;
  }

  /** The three differences that `check` prints are all empty. */
  method SameHashes(p: map<string, string>, w: map<string, Option<string>>) returns (same: bool)
    ensures same <==> p.Keys == w.Keys && forall r :: r in w ==> Some(p[r]) == w[r]
  {
    var onlyPayload := p.Keys - w.Keys;
    var onlyWorktree := w.Keys - p.Keys;
    var contentDiff := set r | r in p.Keys * w.Keys && Some(p[r]) != w[r];
    same := onlyPayload == {} && onlyWorktree == {} && contentDiff == {};
    if same {
      forall r | r in w ensures r in p && Some(p[r]) == w[r] {
        assert r !in onlyWorktree && r !in contentDiff;
      }
      assert forall r :: r in p ==> r !in onlyPayload;
    } else if p.Keys == w.Keys {
      assert contentDiff != {};
    }
  }

  /** One step of the sort by key. */
  method InsertByKey(vs: seq<string>, v: string) returns (r: seq<string>)
    requires Ascending(vs) && IsVersion(v) && v !in vs
    ensures Ascending(r) && Elements(r) == Elements(vs) + {v}
  {
    hide Below, VerKey, IsVersion, Elements;
    var k := |vs|;
    while k > 0 && Below(VerKey(v), VerKey(vs[k - 1]))
      invariant 0 <= k <= |vs|
      invariant forall j :: k <= j < |vs| ==> !Below(VerKey(vs[j]), VerKey(v))
    {
      Asymmetric(VerKey(v), VerKey(vs[k - 1]));
      k := k - 1;
    }
    forall i | 0 <= i < k ensures !Below(VerKey(v), VerKey(vs[i])) {
      if i < k - 1 {
        Transitive(VerKey(v), VerKey(vs[k - 1]), VerKey(vs[i]));
      }
    }
    r := vs[..k] + [v] + vs[k..];
    Inserted(vs, k, v);
  }

  lemma Inserted(vs: seq<string>, k: nat, v: string)
    requires Ascending(vs) && IsVersion(v) && v !in vs && k <= |vs|
    requires forall i :: 0 <= i < k ==> !Below(VerKey(v), VerKey(vs[i]))
    requires forall j :: k <= j < |vs| ==> !Below(VerKey(vs[j]), VerKey(v))
    ensures var r := vs[..k] + [v] + vs[k..]; Ascending(r) && Elements(r) == Elements(vs) + {v}
  {
    hide Below, VerKey, IsVersion;
    assert vs == vs[..k] + vs[k..];
  }

  lemma Asymmetric(a: Key, b: Key)
    requires Below(a, b)
    ensures !Below(b, a)
  {
  }

  lemma Transitive(a: Key, b: Key, c: Key)
    requires !Below(a, b) && !Below(b, c)
    ensures !Below(a, c)
  {
  }
}
