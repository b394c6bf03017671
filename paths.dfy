/**
 * Fan-out storage paths for bundles, properties, blobs and reference lists
 * (AbstractBundlePersistenceManager.build*Path). A path is built by appending to a
 * caller's buffer; a null buffer is the empty prefix here.
 */
module Paths {
  import opened Ids

  /** FileSystem.SEPARATOR_CHAR and FileSystem.SEPARATOR. */
  const SeparatorChar: char := '/'
  const Separator: string := "/"

  /** NODEFILENAME and NODEREFSFILENAME. */
  const NodeFileName: string := "n"
  const NodeRefsFileName: string := "r"

  /** A string interning index (StringIndex.stringToIndex). */
  type StringIndex = string -> nat

  ghost predicate Injective(index: StringIndex) {
    forall a, b :: index(a) == index(b) ==> a == b
  }

  // ---------------------------------------------------------------- text helpers

  /** The characters of s other than c, in order. */
  function Without(s: string, c: char): string
    decreases |s|
  {
    if s == [] then []
    else Without(s[..|s| - 1], c) + (if s[|s| - 1] == c then [] else [s[|s| - 1]])
  }

  lemma WithoutSnoc(s: string, x: char, c: char)
    ensures Without(s + [x], c) == Without(s, c) + (if x == c then [] else [x])
  {
    assert (s + [x])[..|s|] == s;
  }

  lemma {:induction false} WithoutConcat(a: string, b: string, c: char)
    ensures Without(a + b, c) == Without(a, c) + Without(b, c)
    decreases |b|
  {
    if b == [] {
      assert a + b == a;
    } else {
      var binit := b[..|b| - 1];
      assert a + b == (a + binit) + [b[|b| - 1]];
      assert b == binit + [b[|b| - 1]];
      WithoutSnoc(a + binit, b[|b| - 1], c);
      WithoutSnoc(binit, b[|b| - 1], c);
      WithoutConcat(a, binit, c);
    }
  }

  /** Without keeps exactly the characters other than c. */
  lemma {:induction false} WithoutMembers(s: string, c: char)
    ensures forall x :: x in Without(s, c) <==> x in s && x != c
    decreases |s|
  {
    if s != [] {
      var init := s[..|s| - 1];
      assert s == init + [s[|s| - 1]];
      WithoutMembers(init, c);
    }
  }

  lemma {:induction false} WithoutAbsent(s: string, c: char)
    requires c !in s
    ensures Without(s, c) == s
    decreases |s|
  {
    if s != [] {
      WithoutAbsent(s[..|s| - 1], c);
      assert s == s[..|s| - 1] + [s[|s| - 1]];
    }
  }

  function Digit(d: nat): (c: char)
    requires d < 10
    ensures IsDigit(c) && c as int - 48 == d
  {
    (48 + d) as char
  }

  predicate IsDigit(c: char) { 48 <= c as int <= 57 }

  /** Decimal rendering of a non-negative int (StringBuffer.append(int)). */
  function NatText(n: nat): (s: string)
    ensures |s| > 0
    ensures forall i :: 0 <= i < |s| ==> IsDigit(s[i])
    decreases n
  {
    if n < 10 then [Digit(n)] else NatText(n / 10) + [Digit(n % 10)]
  }

  /** Decimal rendering of any int: a minus sign before the digits of a negative one. */
  function IntText(i: int): (s: string)
    ensures '.' !in s && '/' !in s
  {
    if i < 0 then "-" + NatText(-i) else NatText(i)
  }

  function ParseNat(s: string): nat
    requires forall i :: 0 <= i < |s| ==> IsDigit(s[i])
    decreases |s|
  {
    if s == [] then 0
    else
      var last := s[|s| - 1];
      assert IsDigit(last);
      ParseNat(s[..|s| - 1]) * 10 + (last as int - 48)
  }

  /** Decimal rendering is read back by ParseNat: the rendering loses nothing. */
  lemma {:induction false} ParseNatText(n: nat)
    ensures ParseNat(NatText(n)) == n
    decreases n
  {
    if n >= 10 {
      var s := NatText(n);
      assert s[..|s| - 1] == NatText(n / 10);
      ParseNatText(n / 10);
    }
  }

  lemma NatTextInjective(m: nat, n: nat)
    requires NatText(m) == NatText(n)
    ensures m == n
  {
    ParseNatText(m);
    ParseNatText(n);
  }

  lemma IntTextInjective(i: int, j: int)
    requires IntText(i) == IntText(j)
    ensures i == j
  {
    assert (i < 0) == (IntText(i)[0] == '-');
    assert (j < 0) == (IntText(j)[0] == '-');
    if i < 0 {
      assert NatText(-i) == IntText(i)[1..];
      assert NatText(-j) == IntText(j)[1..];
      NatTextInjective(-i, -j);
    } else {
      NatTextInjective(i, j);
    }
  }

  lemma DelimiterAfter(x: string, y: string, c: char)
    requires c !in x
    ensures (x + [c] + y)[|x|] == c
    ensures forall i :: 0 <= i < |x| ==> (x + [c] + y)[i] != c
  {
    forall i | 0 <= i < |x| ensures (x + [c] + y)[i] != c {
      assert (x + [c] + y)[i] == x[i];
    }
  }

  lemma DelimiterBefore(x: string, y: string, c: char)
    requires c !in y
    ensures (x + [c] + y)[|x|] == c
    ensures forall i :: |x| < i < |x| + 1 + |y| ==> (x + [c] + y)[i] != c
  {
    forall i | |x| < i < |x| + 1 + |y| ensures (x + [c] + y)[i] != c {
      assert (x + [c] + y)[i] == y[i - |x| - 1];
    }
  }

  /** Splitting at the first occurrence of a delimiter that the left parts do not contain. */
  lemma SplitFirst(x: string, y: string, x': string, y': string, c: char)
    requires c !in x && c !in x'
    requires x + [c] + y == x' + [c] + y'
    ensures x == x' && y == y'
  {
    var s := x + [c] + y;
    DelimiterAfter(x, y, c);
    DelimiterAfter(x', y', c);
    assert |x| == |x'|;
    assert x == s[..|x|] == x';
    assert y == s[|x| + 1..] == y';
  }

  /** Splitting at the last occurrence of a delimiter that the right parts do not contain. */
  lemma SplitLast(x: string, y: string, x': string, y': string, c: char)
    requires c !in y && c !in y'
    requires x + [c] + y == x' + [c] + y'
    ensures x == x' && y == y'
  {
    var s := x + [c] + y;
    DelimiterBefore(x, y, c);
    DelimiterBefore(x', y', c);
    assert |y| == |y'|;
    assert x == s[..|x|] == x';
    assert y == s[|x| + 1..] == y';
  }

  // ---------------------------------------------------------------- node folder path

  /** Separators go before the 3rd and the 5th character of the dash-free text. */
  function Fanout(k: string): string {
    if |k| <= 2 then k
    else if |k| <= 4 then k[..2] + [SeparatorChar] + k[2..]
    else k[..2] + [SeparatorChar] + k[2..4] + [SeparatorChar] + k[4..]
  }

  /** The folder of a node: its id text without dashes, fanned out into three levels. */
  function FolderPath(id: NodeId): string {
    Fanout(Without(id.text, '-'))
  }

  lemma FanoutSnoc(k: string, c: char)
    ensures Fanout(k + [c]) == Fanout(k) + (if |k| == 2 || |k| == 4 then [SeparatorChar] else []) + [c]
  {
    var kc := k + [c];
    if |k| <= 1 {
    } else if |k| == 2 {
      assert kc[..2] == k && kc[2..] == [c];
    } else if |k| == 3 {
      assert kc[..2] == k[..2] && kc[2..] == k[2..] + [c];
    } else if |k| == 4 {
      assert kc[..2] == k[..2] && kc[2..4] == k[2..] && kc[4..] == [c];
    } else {
      assert kc[..2] == k[..2] && kc[2..4] == k[2..4] && kc[4..] == k[4..] + [c];
    }
  }

  /** One kept character of buildNodeFolderPath's loop. */
  lemma FolderStep(buf: string, k: string, c: char)
    ensures buf + Fanout(k + [c]) ==
      (if |k| == 2 || |k| == 4 then buf + Fanout(k) + [SeparatorChar] else buf + Fanout(k)) + [c]
  {
    FanoutSnoc(k, c);
  }

  /** buildNodeFolderPath: walks the id text, skips dashes and puts a separator before
      the 3rd and the 5th kept character; whatever the buffer held stays in front. */
  method BuildNodeFolderPath(buf: string, id: NodeId) returns (r: string)
    ensures r == buf + FolderPath(id)
  {
    var chars := id.text;
    r := buf;
    var cnt := 0;
    ghost var kept: string := [];
    for i := 0 to |chars|
      invariant kept == Without(chars[..i], '-')
      invariant cnt == |kept|
      invariant r == buf + Fanout(kept)
    {
      assert chars[..i + 1] == chars[..i] + [chars[i]];
      WithoutSnoc(chars[..i], chars[i], '-');
      if chars[i] != '-' {
        FolderStep(buf, kept, chars[i]);
        if cnt == 2 || cnt == 4 {
          r := r + [SeparatorChar];
        }
        r := r + [chars[i]];
        cnt := cnt + 1;
        kept := kept + [chars[i]];
      }
    }
    assert chars[..|chars|] == chars;
  }

  /** Dropping the separator from x + [separator] + y when neither part holds one. */
  lemma WithoutJoin(x: string, y: string)
    requires SeparatorChar !in x && SeparatorChar !in y
    ensures Without(x + [SeparatorChar] + y, SeparatorChar) == x + y
  {
    WithoutSnoc(x, SeparatorChar, SeparatorChar);
    assert Without(x + [SeparatorChar], SeparatorChar) == Without(x, SeparatorChar);
    WithoutAbsent(x, SeparatorChar);
    WithoutConcat(x + [SeparatorChar], y, SeparatorChar);
    WithoutAbsent(y, SeparatorChar);
  }

  lemma UnFanout(k: string)
    requires SeparatorChar !in k
    ensures Without(Fanout(k), SeparatorChar) == k
  {
    if |k| <= 2 {
      WithoutAbsent(k, SeparatorChar);
    } else if |k| <= 4 {
      assert k[..2] + k[2..] == k;
      WithoutJoin(k[..2], k[2..]);
    } else {
      var x, y, z := k[..2], k[2..4], k[4..];
      assert Fanout(k) == (x + [SeparatorChar] + y) + [SeparatorChar] + z;
      WithoutJoin(x, y);
      WithoutSnoc(x + [SeparatorChar] + y, SeparatorChar, SeparatorChar);
      WithoutConcat(x + [SeparatorChar] + y + [SeparatorChar], z, SeparatorChar);
      WithoutAbsent(z, SeparatorChar);
      assert x + y + z == k;
    }
  }

  lemma FanoutSeparators(k: string)
    requires SeparatorChar !in k
    ensures forall j :: 0 <= j < |Fanout(k)| ==>
      (Fanout(k)[j] == SeparatorChar <==> (j == 2 && |k| > 2) || (j == 5 && |k| > 4))
  {
    var f := Fanout(k);
    forall j | 0 <= j < |f|
      ensures f[j] == SeparatorChar <==> (j == 2 && |k| > 2) || (j == 5 && |k| > 4)
    {
      if |k| <= 2 {
        assert f[j] == k[j];
      } else if j < 2 {
        assert f[j] == k[j];
      } else if j == 2 {
      } else if |k| <= 4 {
        assert f[j] == k[j - 1];
      } else if j < 5 {
        assert f[j] == k[j - 1];
      } else if j > 5 {
        assert f[j] == k[j - 2];
      }
    }
  }

  /** Removing the separators from a folder path gives back the id text without dashes,
      and separators stand exactly at offsets 2 and 5 (when the path is that long). */
  lemma FolderPathSeparators(id: NodeId)
    requires SeparatorChar !in id.text
    ensures Without(FolderPath(id), SeparatorChar) == Without(id.text, '-')
    ensures forall j :: 0 <= j < |FolderPath(id)| ==>
      (FolderPath(id)[j] == SeparatorChar <==>
        (j == 2 && |Without(id.text, '-')| > 2) || (j == 5 && |Without(id.text, '-')| > 4))
  {
    var k := Without(id.text, '-');
    WithoutMembers(id.text, '-');
    UnFanout(k);
    FanoutSeparators(k);
  }

  // ---------------------------------------------------------------- canonical ids

  predicate IsHexDigit(c: char) { '0' <= c <= '9' || 'a' <= c <= 'f' }

  predicate IsDashOffset(i: int) { i == 8 || i == 13 || i == 18 || i == 23 }

  /** The canonical text of a 128-bit id: 32 hex digits in groups 8-4-4-4-12. */
  predicate Canonical(s: string) {
    |s| == 36 && forall i :: 0 <= i < 36 ==> if IsDashOffset(i) then s[i] == '-' else IsHexDigit(s[i])
  }

  /** The hex digits of a canonical text, read off by position. */
  function HexOf(s: string): string
    requires |s| == 36
  {
    s[..8] + s[9..13] + s[14..18] + s[19..23] + s[24..]
  }

  lemma WithoutSplitAt(s: string, a: nat, b: nat, c: char)
    requires a <= b <= |s|
    ensures Without(s[..b], c) == Without(s[..a], c) + Without(s[a..b], c)
  {
    assert s[..b] == s[..a] + s[a..b];
    WithoutConcat(s[..a], s[a..b], c);
  }

  lemma HexRun(s: string, a: nat, b: nat)
    requires Canonical(s) && a <= b <= 36
    requires forall i :: a <= i < b ==> !IsDashOffset(i)
    ensures Without(s[a..b], '-') == s[a..b]
  {
    forall i | 0 <= i < b - a ensures s[a..b][i] != '-' {
      assert s[a..b][i] == s[a + i];
    }
    WithoutAbsent(s[a..b], '-');
  }

  lemma DashAt(s: string, a: nat)
    requires Canonical(s) && a < 36 && IsDashOffset(a)
    ensures Without(s[..a + 1], '-') == Without(s[..a], '-')
  {
    assert s[..a + 1] == s[..a] + [s[a]];
    WithoutSnoc(s[..a], s[a], '-');
  }

  /** A dash followed by a run of hex digits: the run is kept whole, the dash dropped. */
  lemma StripGroup(s: string, a: nat, b: nat)
    requires Canonical(s) && a < b <= 36 && IsDashOffset(a)
    requires forall i :: a < i < b ==> !IsDashOffset(i)
    ensures Without(s[..b], '-') == Without(s[..a], '-') + s[a + 1..b]
  {
    DashAt(s, a);
    HexRun(s, a + 1, b);
    WithoutSplitAt(s, a + 1, b, '-');
  }

  lemma StripCanonical(s: string)
    requires Canonical(s)
    ensures Without(s, '-') == HexOf(s)
  {
    HexRun(s, 0, 8);
    assert s[..8] == s[0..8];
    StripGroup(s, 8, 13);
    StripGroup(s, 13, 18);
    StripGroup(s, 18, 23);
    StripGroup(s, 23, 36);
    assert s[..36] == s;
    assert s[24..36] == s[24..];
  }

  lemma HexOfInjective(s: string, t: string)
    requires Canonical(s) && Canonical(t)
    requires HexOf(s) == HexOf(t)
    ensures s == t
  {
    var h := HexOf(s);
    assert s[..8] == h[..8] == t[..8];
    assert s[9..13] == h[8..12] == t[9..13];
    assert s[14..18] == h[12..16] == t[14..18];
    assert s[19..23] == h[16..20] == t[19..23];
    assert s[24..] == h[20..] == t[24..];
    forall i | 0 <= i < 36 ensures s[i] == t[i] {
      if IsDashOffset(i) {
      } else if i < 8 {
        assert s[i] == s[..8][i];
      } else if i < 13 {
        assert s[i] == s[9..13][i - 9];
      } else if i < 18 {
        assert s[i] == s[14..18][i - 14];
      } else if i < 23 {
        assert s[i] == s[19..23][i - 19];
      } else {
        assert s[i] == s[24..][i - 24];
      }
    }
  }

  /** For a canonical id the folder path has 34 characters: two, a separator, two,
      a separator, and the remaining 28 hex digits. */
  lemma FolderPathShape(id: NodeId)
    requires Canonical(id.text)
    ensures |FolderPath(id)| == 34
    ensures forall j :: 0 <= j < 34 ==>
      if j == 2 || j == 5 then FolderPath(id)[j] == SeparatorChar else IsHexDigit(FolderPath(id)[j])
  {
    StripCanonical(id.text);
    var h := HexOf(id.text);
    assert |h| == 32;
    forall j | 0 <= j < 32 ensures IsHexDigit(h[j]) {
      var s := id.text;
      if j < 8 { assert h[j] == s[j]; }
      else if j < 12 { assert h[j] == s[j + 1]; }
      else if j < 16 { assert h[j] == s[j + 2]; }
      else if j < 20 { assert h[j] == s[j + 3]; }
      else { assert h[j] == s[j + 4]; }
    }
    assert FolderPath(id) == h[..2] + [SeparatorChar] + h[2..4] + [SeparatorChar] + h[4..];
  }

  /** Distinct canonical ids get distinct folders. */
  lemma FolderPathInjective(a: NodeId, b: NodeId)
    requires Canonical(a.text) && Canonical(b.text)
    requires FolderPath(a) == FolderPath(b)
    ensures a == b
  {
    StripCanonical(a.text);
    StripCanonical(b.text);
    var ha, hb := HexOf(a.text), HexOf(b.text);
    var f := FolderPath(a);
    assert f == ha[..2] + [SeparatorChar] + ha[2..4] + [SeparatorChar] + ha[4..];
    assert f == hb[..2] + [SeparatorChar] + hb[2..4] + [SeparatorChar] + hb[4..];
    assert ha[..2] == f[..2] == hb[..2];
    assert ha[2..4] == f[3..5] == hb[2..4];
    assert ha[4..] == f[6..] == hb[4..];
    assert ha == ha[..2] + ha[2..4] + ha[4..];
    assert hb == hb[..2] + hb[2..4] + hb[4..];
    HexOfInjective(a.text, b.text);
  }

  // ---------------------------------------------------------------- file paths

  function NodeFilePath(id: NodeId): string {
    FolderPath(id) + Separator + NodeFileName
  }

  function NodeReferencesFilePath(id: NodeId): string {
    FolderPath(id) + Separator + NodeRefsFileName
  }

  /** The two interned fragments of a property name, separated by a dot. */
  function NameFragment(ns: StringIndex, names: StringIndex, name: QName): string {
    NatText(ns(name.namespaceUri)) + "." + NatText(names(name.localName))
  }

  function PropFilePath(ns: StringIndex, names: StringIndex, id: PropertyId): string {
    FolderPath(id.parentId) + Separator + NameFragment(ns, names, id.name)
  }

  function BlobFilePath(ns: StringIndex, names: StringIndex, id: PropertyId, i: int): string {
    PropFilePath(ns, names, id) + "." + IntText(i)
  }

  /** buildNodeFilePath: the node folder followed by the node file name. */
  method BuildNodeFilePath(buf: string, id: NodeId) returns (r: string)
    ensures r == buf + NodeFilePath(id)
  {
    r := BuildNodeFolderPath(buf, id);
    r := r + Separator;
    r := r + NodeFileName;
  }

  /** buildNodeReferencesFilePath: the node folder followed by the references file name. */
  method BuildNodeReferencesFilePath(buf: string, id: NodeId) returns (r: string)
    ensures r == buf + NodeReferencesFilePath(id)
  {
    r := BuildNodeFolderPath(buf, id);
    r := r + Separator;
    r := r + NodeRefsFileName;
  }

  /** buildPropFilePath: the owner's folder, a separator, then the interned namespace
      and local name joined by a dot. */
  method BuildPropFilePath(buf: string, id: PropertyId, ns: StringIndex, names: StringIndex)
    returns (r: string)
    ensures r == buf + PropFilePath(ns, names, id)
  {
    r := BuildNodeFolderPath(buf, id.parentId);
    r := r + Separator;
    r := r + NatText(ns(id.name.namespaceUri));
    r := r + ".";
    r := r + NatText(names(id.name.localName));
  }

  /** buildBlobFilePath: the property file path, a dot and the value index. */
  method BuildBlobFilePath(buf: string, id: PropertyId, i: int, ns: StringIndex, names: StringIndex)
    returns (r: string)
    ensures r == buf + PropFilePath(ns, names, id) + "." + IntText(i)
    ensures r[..|buf|] == buf
  {
    r := BuildPropFilePath(buf, id, ns, names);
    r := r + ".";
    r := r + IntText(i);
  }

  /** The node file and the references file of two nodes never share a path. */
  lemma NodeAndReferencesFilesDiffer(a: NodeId, b: NodeId)
    ensures NodeFilePath(a) != NodeReferencesFilePath(b)
  {
    var p, q := NodeFilePath(a), NodeReferencesFilePath(b);
    assert p[|p| - 1] == 'n' && q[|q| - 1] == 'r';
  }

  /** Distinct canonical nodes get distinct node files. */
  lemma NodeFilePathInjective(a: NodeId, b: NodeId)
    requires Canonical(a.text) && Canonical(b.text)
    requires NodeFilePath(a) == NodeFilePath(b)
    ensures a == b
  {
    var p := NodeFilePath(a);
    assert FolderPath(a) == p[..|p| - 2] == FolderPath(b);
    FolderPathInjective(a, b);
  }

  /** Distinct canonical nodes get distinct references files. */
  lemma NodeReferencesFilePathInjective(a: NodeId, b: NodeId)
    requires Canonical(a.text) && Canonical(b.text)
    requires NodeReferencesFilePath(a) == NodeReferencesFilePath(b)
    ensures a == b
  {
    var p := NodeReferencesFilePath(a);
    assert FolderPath(a) == p[..|p| - 2] == FolderPath(b);
    FolderPathInjective(a, b);
  }

  lemma NameFragmentInjective(ns: StringIndex, names: StringIndex, m: QName, n: QName)
    requires Injective(ns) && Injective(names)
    requires NameFragment(ns, names, m) == NameFragment(ns, names, n)
    ensures m == n
  {
    SplitFirst(NatText(ns(m.namespaceUri)), NatText(names(m.localName)),
               NatText(ns(n.namespaceUri)), NatText(names(n.localName)), '.');
    NatTextInjective(ns(m.namespaceUri), ns(n.namespaceUri));
    NatTextInjective(names(m.localName), names(n.localName));
  }

  /** With injective string indexes, distinct properties of canonical nodes get distinct files. */
  lemma PropFilePathInjective(ns: StringIndex, names: StringIndex, a: PropertyId, b: PropertyId)
    requires Injective(ns) && Injective(names)
    requires Canonical(a.parentId.text) && Canonical(b.parentId.text)
    requires PropFilePath(ns, names, a) == PropFilePath(ns, names, b)
    ensures a == b
  {
    FolderPathShape(a.parentId);
    FolderPathShape(b.parentId);
    var p := PropFilePath(ns, names, a);
    assert FolderPath(a.parentId) == p[..34] == FolderPath(b.parentId);
    FolderPathInjective(a.parentId, b.parentId);
    assert NameFragment(ns, names, a.name) == p[35..] == NameFragment(ns, names, b.name);
    NameFragmentInjective(ns, names, a.name, b.name);
  }

  /** Each value slot of each property gets its own blob file. */
  lemma BlobFilePathInjective(ns: StringIndex, names: StringIndex, a: PropertyId, i: int, b: PropertyId, j: int)
    requires Injective(ns) && Injective(names)
    requires Canonical(a.parentId.text) && Canonical(b.parentId.text)
    requires BlobFilePath(ns, names, a, i) == BlobFilePath(ns, names, b, j)
    ensures a == b && i == j
  {
    SplitLast(PropFilePath(ns, names, a), IntText(i), PropFilePath(ns, names, b), IntText(j), '.');
    PropFilePathInjective(ns, names, a, b);
    IntTextInjective(i, j);
  }
}
