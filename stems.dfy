/** The four stems Demucs separates a track into, and the progress snapshot keyed by them. */
module Stems {

  datatype Stem = Drums | Bass | Other | Vocals

  /** The handler's `stems` array, in its fixed visiting order. */
  const All: seq<Stem> := [Drums, Bass, Other, Vocals]

  /** The key under which a stem appears in `progressState`, `audioUrls` and file names. */
  function Name(s: Stem): (r: string)
    ensures r != [] && '_' !in r && '/' !in r
  {
    match s
    case Drums => "drums"
    case Bass => "bass"
    case Other => "other"
    case Vocals => "vocals"
  }

  /** Position of a stem in `All`. */
  function Rank(s: Stem): (k: nat)
    ensures k < |All| && All[k] == s
  {
    match s
    case Drums => 0
    case Bass => 1
    case Other => 2
    case Vocals => 3
  }

  lemma NameInjective(a: Stem, b: Stem)
    ensures Name(a) == Name(b) ==> a == b
  {
  }

  lemma AllIsComplete(s: Stem)
    ensures s in All
  {
    assert All[Rank(s)] == s;
  }

  /**
   * A value of `progressState`: the progress of each stem as an integer
   * percentage (100 stands for the source's 1.0). Before the first upload the
   * map is empty.
   */
  type Snapshot = map<Stem, nat>

  /** Every stem at the same percentage `v`. */
  function Uniform(v: nat): (m: Snapshot)
    ensures forall s :: s in m && m[s] == v
  {
    assert forall s :: s in All by {
      forall s ensures s in All { AllIsComplete(s); }
    }
    map s | s in All :: v
  }

  /** Setting each stem of `All` in turn to `v` yields `Uniform(v)`, whatever the map held. */
  lemma OverwriteAll(p: Snapshot, v: nat)
    ensures p + Uniform(v) == Uniform(v)
  {
    forall s ensures s in Uniform(v) { AllIsComplete(s); }
  }
}
