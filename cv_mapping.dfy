/**
 * Controlled-vocabulary normalisation (`get_match`): the mapping file gives,
 * per category, canonical terms in the dictionary's iteration order, each
 * with its synonyms.
 */
module CvMapping {
  import opened Wrappers
  import opened Models

  datatype CvEntry = CvEntry(canonical: string, synonyms: seq<string>)

  /** category -> canonical terms with their synonyms, in the order `items()` yields them. */
  type CvMap = map<string, seq<CvEntry>>

  /** True when the `i`th entry is the first whose synonyms contain `term`. */
  ghost predicate FirstListing(entries: seq<CvEntry>, term: string, i: int) {
    0 <= i < |entries| && term in entries[i].synonyms &&
    forall j :: 0 <= j < i ==> term !in entries[j].synonyms
  }

  /**
   * The canonical term of `term`: the first entry, in iteration order, whose
   * synonyms contain it; `term` itself when no entry does.
   */
  function Canonical(entries: seq<CvEntry>, term: string): (r: string)
    ensures (forall j :: 0 <= j < |entries| ==> term !in entries[j].synonyms) ==> r == term
    ensures forall i :: FirstListing(entries, term, i) ==> r == entries[i].canonical
  {
    if entries == [] then term
    else if term in entries[0].synonyms then entries[0].canonical
    else
      var r := Canonical(entries[1..], term);
      assert forall i :: FirstListing(entries, term, i) ==> FirstListing(entries[1..], term, i - 1);
      r
  }

  /**
   * `get_match(cvkey, term)`: scans the entries of category `cvKey` and
   * returns at the first that lists `term`; a category missing from the
   * mapping raises KeyError.
   */
  method GetMatch(cv: CvMap, cvKey: string, term: string) returns (r: Result<string, Fault>)
    ensures cvKey !in cv ==> r == Failure(KeyError(cvKey))
    ensures cvKey in cv ==> r == Success(Canonical(cv[cvKey], term))
  {
    if cvKey !in cv {
      return Failure(KeyError(cvKey));
    }
    var entries := cv[cvKey];
    var i := 0;
    while i < |entries|
      invariant 0 <= i <= |entries|
      invariant Canonical(entries[i..], term) == Canonical(entries, term)
    {
      if term in entries[i].synonyms {
        return Success(entries[i].canonical);
      }
      assert entries[i..][1..] == entries[i + 1..];
      i := i + 1;
    }
    return Success(term);
  }

  /**
   * When no two entries share a synonym, every synonym of an entry resolves
   * to that entry's canonical term.
   */
  lemma SynonymResolves(entries: seq<CvEntry>, i: nat, term: string)
    requires i < |entries| && term in entries[i].synonyms
    requires forall j, k, t :: 0 <= j < k < |entries| && t in entries[j].synonyms ==> t !in entries[k].synonyms
    ensures Canonical(entries, term) == entries[i].canonical
  {
    assert FirstListing(entries, term, i);
  }
}
