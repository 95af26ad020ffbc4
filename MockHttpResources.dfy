/**
 * The content-type lookup of MiscUtils/MockHttpResources.py: the table
 * from file extension to MIME type built from a list of (type, extensions)
 * groups, and `HttpContentType`, which picks the type of a filename by the
 * text after its last '.'.
 */
module MockHttpResources {
  import opened Wrappers
  import opened Sequences

  /** `FileMimeTypes`: (content type, extensions listed under it), in order. */
  type MimeGroups = seq<(string, seq<string>)>

  const DefaultContentType := "application/octet-stream"

  /** The pairs of the list comprehension at lines 15-16: `(ft, ct) for (ct, fts) in groups for ft in fts`. */
  function Pairs(groups: MimeGroups): seq<(string, string)>
  {
    if groups == [] then []
    else
      var g := groups[|groups| - 1];
      Pairs(groups[..|groups| - 1]) + GroupPairs(g.0, g.1)
  }

  /** The pairs of one group: each of its extensions with its content type. */
  function GroupPairs(ct: string, fts: seq<string>): seq<(string, string)>
  {
    seq(|fts|, i requires 0 <= i < |fts| => (fts[i], ct))
  }

  /** `dict(pairs)`: a later pair for the same key replaces an earlier one. */
  function DictOf(pairs: seq<(string, string)>): map<string, string>
  {
    if pairs == [] then map[]
    else
      var p := pairs[|pairs| - 1];
      DictOf(pairs[..|pairs| - 1])[p.0 := p.1]
  }

  /** `FileType_MimeType` (lines 15-16). */
  function FileTypeMimeType(groups: MimeGroups): map<string, string>
  {
    DictOf(Pairs(groups))
  }

  /**
   * Reference definition of the table entry for ext: the content type of
   * the last group that lists ext.
   */
  function LastTypeFor(groups: MimeGroups, ext: string): Option<string>
  {
    if groups == [] then None
    else
      var g := groups[|groups| - 1];
      if ext in g.1 then Some(g.0) else LastTypeFor(groups[..|groups| - 1], ext)
  }

  /** LastTypeFor finds a group listing ext whenever there is one, and no later group lists ext. */
  lemma {:induction false} LastTypeForIsLast(groups: MimeGroups, ext: string)
    ensures var r := LastTypeFor(groups, ext);
      && (r.Some? <==> exists i :: 0 <= i < |groups| && ext in groups[i].1)
      && (r.Some? ==>
            exists i :: 0 <= i < |groups| && groups[i].0 == r.value && ext in groups[i].1
              && forall j :: i < j < |groups| ==> ext !in groups[j].1)
  {
    if groups != [] {
      var n := |groups| - 1;
      var init := groups[..n];
      assert forall i :: 0 <= i < n ==> init[i] == groups[i];
      if ext in groups[n].1 {
        assert groups[n].0 == LastTypeFor(groups, ext).value;
      } else {
        LastTypeForIsLast(init, ext);
        if LastTypeFor(init, ext).Some? {
          var i :| 0 <= i < |init| && init[i].0 == LastTypeFor(init, ext).value && ext in init[i].1
                   && forall j :: i < j < |init| ==> ext !in init[j].1;
          assert groups[i] == init[i];
          assert forall j :: i < j < |groups| ==> ext !in groups[j].1 by {
            forall j | i < j < |groups| ensures ext !in groups[j].1 {
              if j < n {
                assert groups[j] == init[j];
              }
            }
          }
        }
      }
    }
  }

  /** A dictionary built from a concatenation is the first one overridden by the second. */
  lemma {:induction false} DictOfAppend(a: seq<(string, string)>, b: seq<(string, string)>)
    ensures DictOf(a + b) == DictOf(a) + DictOf(b)
    decreases |b|
  {
    if b == [] {
      assert a + b == a;
    } else {
      var init := b[..|b| - 1];
      var p := b[|b| - 1];
      DictOfAppend(a, init);
      AppendInit(a, b);
      assert DictOf(a + b) == DictOf(a + init)[p.0 := p.1];
      UpdateAfterUnion(DictOf(a), DictOf(init), p.0, p.1);
    }
  }

  lemma UpdateAfterUnion(m1: map<string, string>, m2: map<string, string>, k: string, v: string)
    ensures (m1 + m2)[k := v] == m1 + m2[k := v]
  {
  }

  /** The pairs of one group map each of its extensions to its type. */
  lemma {:induction false} DictOfGroup(ct: string, fts: seq<string>)
    ensures var m := DictOf(GroupPairs(ct, fts));
      && (forall k :: k in m <==> k in fts)
      && (forall k :: k in m ==> m[k] == ct)
    decreases |fts|
  {
    var ps := GroupPairs(ct, fts);
    if fts != [] {
      var init := fts[..|fts| - 1];
      DictOfGroup(ct, init);
      assert ps[..|ps| - 1] == GroupPairs(ct, init);
      forall k ensures k in fts <==> k in init || k == fts[|fts| - 1] {
        assert fts == init + [fts[|fts| - 1]];
      }
    }
  }

  /**
   * The table maps ext exactly when some group lists it, and then to the
   * type of the last group that lists it.
   */
  lemma {:induction false} TableEntry(groups: MimeGroups, ext: string)
    ensures var m := FileTypeMimeType(groups);
      && (ext in m <==> LastTypeFor(groups, ext).Some?)
      && (ext in m ==> m[ext] == LastTypeFor(groups, ext).value)
  {
    if groups != [] {
      var g := groups[|groups| - 1];
      var init := groups[..|groups| - 1];
      TableEntry(init, ext);
      var ps := GroupPairs(g.0, g.1);
      assert Pairs(groups) == Pairs(init) + ps;
      DictOfAppend(Pairs(init), ps);
      DictOfGroup(g.0, g.1);
      var m1 := DictOf(Pairs(init));
      var m2 := DictOf(ps);
      assert FileTypeMimeType(groups) == m1 + m2;
      assert LastTypeFor(groups, ext) == if ext in g.1 then Some(g.0) else LastTypeFor(init, ext);
      UnionEntry(m1, m2, ext, g.0, ext in g.1, LastTypeFor(init, ext));
    }
  }

  lemma UnionEntry(m1: map<string, string>, m2: map<string, string>, ext: string, ct: string,
                   listed: bool, before: Option<string>)
    requires (ext in m1 <==> before.Some?) && (ext in m1 ==> m1[ext] == before.value)
    requires (ext in m2 <==> listed) && (ext in m2 ==> m2[ext] == ct)
    ensures var r := if listed then Some(ct) else before;
      (ext in m1 + m2 <==> r.Some?) && (ext in m1 + m2 ==> (m1 + m2)[ext] == r.value)
  {
  }

  /** An extension listed under exactly one group maps to that group's type. */
  lemma ListedOnceMapsToItsType(groups: MimeGroups, i: nat, ext: string)
    requires i < |groups| && ext in groups[i].1
    requires forall j :: 0 <= j < |groups| && j != i ==> ext !in groups[j].1
    ensures ext in FileTypeMimeType(groups) && FileTypeMimeType(groups)[ext] == groups[i].0
  {
    TableEntry(groups, ext);
    LastTypeForIsLast(groups, ext);
  }

  // ---------------------------------------------------------------------
  // HttpContentType

  /** The index of the last '.' of s, if any. */
  function LastDot(s: string): (r: Option<nat>)
    ensures r.Some? ==> r.value < |s| && s[r.value] == '.' && '.' !in s[r.value + 1..]
    ensures r.None? <==> '.' !in s
  {
    if s == [] then None
    else if s[|s| - 1] == '.' then Some(|s| - 1)
    else
      var r := LastDot(s[..|s| - 1]);
      assert s == s[..|s| - 1] + [s[|s| - 1]];
      if r.Some? then
        assert s[r.value + 1..] == s[..|s| - 1][r.value + 1..] + [s[|s| - 1]];
        r
      else r
  }

  /** `s.rsplit(".", 1)`: the whole string, or the parts before and after the last '.'. */
  function RSplitDot(s: string): (parts: seq<string>)
    ensures 1 <= |parts| <= 2
    ensures |parts| == 2 ==> s == parts[0] + "." + parts[1] && '.' !in parts[1]
    ensures |parts| == 1 <==> '.' !in s
    ensures |parts| == 1 ==> parts[0] == s
  {
    match LastDot(s)
    case None => [s]
    case Some(i) =>
      assert s == s[..i] + "." + s[i + 1..];
      [s[..i], s[i + 1..]]
  }

  /** `HttpContentType` (lines 18-22), for the table `types`. */
  function HttpContentType(filename: string, types: map<string, string>): string
  {
    var fsplit := RSplitDot(filename);
    if |fsplit| == 2 && fsplit[1] in types then types[fsplit[1]] else DefaultContentType
  }

  /** A filename without '.' gets the default type. */
  lemma NoDotGetsDefault(filename: string, types: map<string, string>)
    requires '.' !in filename
    ensures HttpContentType(filename, types) == DefaultContentType
  {
  }

  /**
   * Only the text after the last '.' is looked up: a known extension gives
   * exactly its table entry, an unknown one the default.
   */
  lemma ExtensionAfterLastDot(stem: string, ext: string, types: map<string, string>)
    requires '.' !in ext
    ensures HttpContentType(stem + "." + ext, types) == if ext in types then types[ext] else DefaultContentType
  {
    var f := stem + "." + ext;
    var parts := RSplitDot(f);
    assert f[|stem|] == '.';
    assert |parts| == 2;
    SplitAtLastDotUnique(stem, ext, parts[0], parts[1]);
  }

  lemma SplitAtLastDotUnique(a: string, b: string, c: string, d: string)
    requires a + "." + b == c + "." + d
    requires '.' !in b && '.' !in d
    ensures b == d
  {
    var s := a + "." + b;
    assert s[|a|] == '.';
    assert s[|c|] == '.';
    assert |b| == |d|;
    assert b == s[|s| - |b|..];
    assert d == s[|s| - |d|..];
  }

  /** "a.tar.gz" is looked up under "gz": the extension is what follows the last '.'. */
  lemma TarGzLooksUpGz(types: map<string, string>)
    ensures HttpContentType("a.tar.gz", types) == if "gz" in types then types["gz"] else DefaultContentType
  {
    assert "a.tar" + "." + "gz" == "a.tar.gz";
    ExtensionAfterLastDot("a.tar", "gz", types);
  }
}
