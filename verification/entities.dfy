/** The entities a loaded dictionary is made of: interned phonetic units,
    pronunciations and words. */
module Entities {
  import opened Wrappers

  /** A handle to a context-independent phonetic unit. Handles are handed out
      by the unit interner; the dictionary never makes one itself. */
  datatype Unit = Unit(handle: nat)

  /** The unit interner the dictionary consults: a deterministic map from a
      phone name and a filler flag to a unit handle, and the silence unit that
      ends the extra silence-ending pronunciations. */
  datatype Interner = Interner(resolve: (string, bool) -> Unit, silence: Unit)

  /** The weight every loaded pronunciation carries; the file format has no
      probability column. */
  const DefaultProbability: real := 1.0

  /** One way of saying a word. `owner` is the back-reference to the owning
      word, held as that word's spelling: None until the word is built. */
  datatype Pronunciation = Pronunciation(units: seq<Unit>, owner: Option<string>, probability: real)

  /** A dictionary entry: its (normalised) spelling, its pronunciations in
      file order and whether it came from the filler dictionary. */
  datatype Word = Word(spelling: string, pronunciations: seq<Pronunciation>, isFiller: bool)

  /** A freshly parsed pronunciation, not yet attached to a word. */
  function Unattached(units: seq<Unit>): Pronunciation
  {
    Pronunciation(units, None, DefaultProbability)
  }

  /** Every pronunciation of `w` points back at `w`. */
  predicate BoundTo(w: Word)
  {
    forall p :: p in w.pronunciations ==> p.owner == Some(w.spelling)
  }

  predicate AllUnattached(prons: seq<Pronunciation>)
  {
    forall p :: p in prons ==> p.owner.None?
  }

  /** Forgets the back-references. */
  function Detach(prons: seq<Pronunciation>): (r: seq<Pronunciation>)
    ensures |r| == |prons|
    ensures AllUnattached(r)
    ensures forall i :: 0 <= i < |prons| ==> r[i].units == prons[i].units && r[i].probability == prons[i].probability
  {
    seq(|prons|, i requires 0 <= i < |prons| => prons[i].(owner := None))
  }

  /** Stamps the back-reference of every pronunciation with `spelling`. */
  function Attach(prons: seq<Pronunciation>, spelling: string): (r: seq<Pronunciation>)
    ensures |r| == |prons|
    ensures forall p :: p in r ==> p.owner == Some(spelling)
    ensures Detach(r) == Detach(prons)
  {
    seq(|prons|, i requires 0 <= i < |prons| => prons[i].(owner := Some(spelling)))
  }

  /** Detaching pronunciations that were never attached changes nothing. */
  lemma DetachUnattached(prons: seq<Pronunciation>)
    requires AllUnattached(prons)
    ensures Detach(prons) == prons
  {
  }
}
