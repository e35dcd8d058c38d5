/**
 * The naming rules of the close handler: where Demucs leaves each stem, the
 * public file name and URL a found stem is published under, which stems are
 * found, and the insertion order in which `audioUrls` keeps its keys.
 */
module Collector {
  import opened Base
  import opened Stems
  import opened Decimal

  const PublicPrefix: string := "/stems/"

  /** `path.basename(p)` for a path without a trailing separator: the text after the last `/`. */
  function FileName(p: string): (r: string)
    ensures '/' !in r
    ensures |r| <= |p| && r == p[|p| - |r|..]
    ensures |r| < |p| ==> p[|p| - |r| - 1] == '/'
  {
    var k := LastIndex(p, '/');
    p[k + 1..]
  }

  /**
   * `path.basename(name, path.extname(name))` for a file name: the text
   * before the last dot, unless that dot is the first character or the name
   * is "..", in which case there is no extension.
   */
  function StripExtension(name: string): (r: string)
    ensures |r| <= |name| && r == name[..|r|]
    ensures r != name ==> 0 < |r| && name[|r|] == '.' && forall m | |r| < m < |name| :: name[m] != '.'
    ensures r == name ==> name == ".." || forall m | 0 < m < |name| :: name[m] != '.'
    ensures name == ".." ==> r == name
  {
    var k := LastIndex(name, '.');
    if k <= 0 || name == ".." then name else name[..k]
  }

  /** `<outputDir>/htdemucs/<baseName>/<stem>.wav`, where Demucs leaves a separated stem. */
  function StemPath(outputDir: string, baseName: string, s: Stem): string
  {
    outputDir + "/htdemucs/" + baseName + "/" + Name(s) + ".wav"
  }

  /** What follows the base name in a public name: `_<stem>_<timestamp>.wav`. */
  function Suffix(s: Stem, timestamp: nat): string
  {
    "_" + Name(s) + "_" + Render(timestamp) + ".wav"
  }

  /** `<baseName>_<stem>_<timestamp>.wav`, the name of a stem's copy in the public stems directory. */
  function PublicName(baseName: string, s: Stem, timestamp: nat): string
  {
    baseName + Suffix(s, timestamp)
  }

  /** The URL recorded in `audioUrls` for a published stem. */
  function Url(baseName: string, s: Stem, timestamp: nat): string
  {
    PublicPrefix + PublicName(baseName, s, timestamp)
  }

  /** Where the parts of a suffix sit: the stem name between the first two underscores, then the digits. */
  lemma SuffixLayout(s: Stem, t: nat)
    ensures var x, n := Suffix(s, t), |Name(s)|;
      && n + 6 <= |x| && x[n + 1] == '_'
      && x[1..n + 1] == Name(s) && x[n + 2..|x| - 4] == Render(t)
  {
    var x, n := Suffix(s, t), |Name(s)|;
    assert x == "_" + Name(s) + "_" + Render(t) + ".wav";
    assert x[1..n + 1] == Name(s);
  }

  /** The suffix determines the stem and the timestamp. */
  lemma SuffixInjective(s1: Stem, t1: nat, s2: Stem, t2: nat)
    requires Suffix(s1, t1) == Suffix(s2, t2)
    ensures s1 == s2 && t1 == t2
  {
    SuffixLayout(s1, t1);
    SuffixLayout(s2, t2);
    NameInjective(s1, s2);
    RenderInjective(t1, t2);
  }

  /** The public file name determines the stem and the timestamp, for one base name. */
  lemma PublicNameInjective(baseName: string, s1: Stem, t1: nat, s2: Stem, t2: nat)
    requires PublicName(baseName, s1, t1) == PublicName(baseName, s2, t2)
    ensures s1 == s2 && t1 == t2
  {
    assert PublicName(baseName, s1, t1) == baseName + Suffix(s1, t1);
    assert PublicName(baseName, s2, t2) == baseName + Suffix(s2, t2);
    assert (baseName + Suffix(s1, t1))[|baseName|..] == Suffix(s1, t1);
    assert (baseName + Suffix(s2, t2))[|baseName|..] == Suffix(s2, t2);
    SuffixInjective(s1, t1, s2, t2);
  }

  /**
   * Copies made for inputs with the same base name get different URLs
   * unless they are the same stem copied in the same millisecond.
   */
  lemma UrlInjective(baseName: string, s1: Stem, t1: nat, s2: Stem, t2: nat)
    requires Url(baseName, s1, t1) == Url(baseName, s2, t2)
    ensures s1 == s2 && t1 == t2
  {
    var n1, n2 := PublicName(baseName, s1, t1), PublicName(baseName, s2, t2);
    assert (PublicPrefix + n1)[|PublicPrefix|..] == n1;
    assert (PublicPrefix + n2)[|PublicPrefix|..] == n2;
    PublicNameInjective(baseName, s1, t1, s2, t2);
  }

  /**
   * The stems of `stems`, in the same order, whose file Demucs left in
   * `disk` (`fsp.access` succeeds).
   */
  function Found(stems: seq<Stem>, disk: set<string>, outputDir: string, baseName: string): (r: seq<Stem>)
    ensures forall s :: s in r <==> s in stems && StemPath(outputDir, baseName, s) in disk
    ensures Distinct(stems) ==> Distinct(r)
    ensures |r| <= |stems|
    decreases |stems|
  {
    if stems == [] then
      []
    else
      var s := stems[|stems| - 1];
      var init := Found(stems[..|stems| - 1], disk, outputDir, baseName);
      assert forall x :: x in stems <==> x in stems[..|stems| - 1] || x == s;
      if StemPath(outputDir, baseName, s) in disk then init + [s] else init
  }

  /** `r` lists stems in their visiting order: drums, bass, other, vocals. */
  predicate InVisitOrder(r: seq<Stem>)
  {
    forall a, b | 0 <= a < b < |r| :: Rank(r[a]) < Rank(r[b])
  }

  /** `Found` keeps the stems in visiting order. */
  lemma {:induction false} FoundInOrder(stems: seq<Stem>, disk: set<string>, outputDir: string, baseName: string)
    requires InVisitOrder(stems)
    ensures InVisitOrder(Found(stems, disk, outputDir, baseName))
    decreases |stems|
  {
    if stems != [] {
      var init, last := stems[..|stems| - 1], stems[|stems| - 1];
      FoundInOrder(init, disk, outputDir, baseName);
      var r0 := Found(init, disk, outputDir, baseName);
      if StemPath(outputDir, baseName, last) in disk {
        assert Found(stems, disk, outputDir, baseName) == r0 + [last];
        forall m | 0 <= m < |r0| ensures Rank(r0[m]) < Rank(last) {
          assert r0[m] in init;
          var q :| 0 <= q < |init| && init[q] == r0[m];
          assert stems[q] == r0[m];
        }
      }
    }
  }

  /**
   * `audioUrls[s] = ...` for each of `keys` in turn, seen through the key
   * order of the object: a new key goes to the end, an existing key keeps
   * its place.
   */
  function Record(order: seq<Stem>, keys: seq<Stem>): (r: seq<Stem>)
    ensures |order| <= |r| && r[..|order|] == order
    ensures forall s :: s in r <==> s in order || s in keys
    ensures Distinct(order) ==> Distinct(r)
    decreases |keys|
  {
    if keys == [] then
      order
    else
      var s := keys[|keys| - 1];
      var r0 := Record(order, keys[..|keys| - 1]);
      assert forall x :: x in keys <==> x in keys[..|keys| - 1] || x == s;
      if s in r0 then r0 else r0 + [s]
  }

  /**
   * Keys written in visiting order are appended in that order: the keys a
   * job adds to `audioUrls` come after the earlier ones, drums before bass
   * before other before vocals.
   */
  lemma {:induction false} RecordNewInOrder(order: seq<Stem>, keys: seq<Stem>)
    requires Distinct(order) && InVisitOrder(keys)
    ensures InVisitOrder(Record(order, keys)[|order|..])
    decreases |keys|
  {
    if keys != [] {
      var init, s := keys[..|keys| - 1], keys[|keys| - 1];
      RecordNewInOrder(order, init);
      var r0 := Record(order, init);
      if s !in r0 {
        var t0 := r0[|order|..];
        assert Record(order, keys)[|order|..] == t0 + [s];
        forall m | 0 <= m < |t0| ensures Rank(t0[m]) < Rank(s) {
          var x := r0[|order| + m];
          assert x == t0[m];
          assert x in init;
          var q :| 0 <= q < |init| && init[q] == x;
          assert keys[q] == x;
        }
      }
    }
  }
}
